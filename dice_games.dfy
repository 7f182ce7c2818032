/** The first two dice simulations of the third puzzle: the points accumulator
    (`solve1`) and the race along a shared track (`solve2`). */
module DiceGames {
  import opened Dice

  function Min(a: nat, b: nat): nat
  {
    if a <= b then a else b
  }

  // ---------------------------------------------------------------------------
  // solve1: accumulate points round by round
  // ---------------------------------------------------------------------------

  /** The points of round `r` (the `r`-th roll of every die) contributed by the
      first `j` dice. */
  function RoundPoints(cs: seq<Die>, fps: seq<Fingerprint>, r: nat, j: nat): int
    requires |cs| == |fps| && AllRollable(cs) && r >= 1 && j <= |cs|
  {
    if j == 0 then 0 else RoundPoints(cs, fps, r, j - 1) + RollValue(cs[j - 1], fps[j - 1], r)
  }

  /** The running total after `t` full rounds. */
  function Points(cs: seq<Die>, fps: seq<Fingerprint>, t: nat): int
    requires |cs| == |fps| && AllRollable(cs)
  {
    if t == 0 then 0 else Points(cs, fps, t - 1) + RoundPoints(cs, fps, t, |cs|)
  }

  /** With non-negative faces every round adds a non-negative amount. */
  lemma {:induction false} PointsMonotone(cs: seq<Die>, fps: seq<Fingerprint>, t: nat, u: nat)
    requires |cs| == |fps| && AllRollable(cs) && t <= u
    requires forall k, i :: 0 <= k < |cs| && 0 <= i < |cs[k].faces| ==> cs[k].faces[i] >= 0
    ensures Points(cs, fps, t) <= Points(cs, fps, u)
  {
    if t < u {
      PointsMonotone(cs, fps, t, u - 1);
      RoundPointsNonNegative(cs, fps, u, |cs|);
    }
  }

  lemma {:induction false} RoundPointsNonNegative(cs: seq<Die>, fps: seq<Fingerprint>, r: nat, j: nat)
    requires |cs| == |fps| && AllRollable(cs) && r >= 1 && j <= |cs|
    requires forall k, i :: 0 <= k < |cs| && 0 <= i < |cs[k].faces| ==> cs[k].faces[i] >= 0
    ensures RoundPoints(cs, fps, r, j) >= 0
  {
    if j > 0 {
      RoundPointsNonNegative(cs, fps, r, j - 1);
      var v := RollValue(cs[j - 1], fps[j - 1], r);
      var i :| 0 <= i < |cs[j - 1].faces| && cs[j - 1].faces[i] == v;
    }
  }

  /** The sum of the face values that fingerprints `fps` point at, over the
      first `j` dice. */
  function FaceSum(cs: seq<Die>, fps: seq<Fingerprint>, j: nat): int
    requires |cs| == |fps| && j <= |cs|
    requires forall k :: 0 <= k < |cs| ==> 0 <= fps[k].face < |cs[k].faces|
  {
    if j == 0 then 0 else FaceSum(cs, fps, j - 1) + cs[j - 1].faces[fps[j - 1].face]
  }

  /** After round `r` the fingerprints point at the faces rolled in that round,
      so their face sum is the round's points. */
  lemma {:induction false} FaceSumRound(cs: seq<Die>, fps: seq<Fingerprint>, r: nat, next: seq<Fingerprint>, j: nat)
    requires |cs| == |fps| == |next| && AllRollable(cs) && r >= 1 && j <= |cs|
    requires forall k :: 0 <= k < |cs| ==> next[k] == After(cs[k], fps[k], r)
    requires forall k :: 0 <= k < |cs| ==> 0 <= next[k].face < |cs[k].faces|
    ensures FaceSum(cs, next, j) == RoundPoints(cs, fps, r, j)
  {
    if j > 0 {
      FaceSumRound(cs, fps, r, next, j - 1);
    }
  }

  /** Part way through a round of `solve1`: the first `j` dice have rolled,
      taking their state from `prev` to `next`, the others have not, and
      `points` is the running total plus the values rolled so far. */
  ghost predicate RoundState(dice: seq<DieRoll>, total: int, prev: seq<Fingerprint>, next: seq<Fingerprint>,
                             j: nat, points: int)
    reads States(dice)
  {
    && |prev| == |next| == |dice| && j <= |dice|
    && (forall k :: 0 <= k < |dice| ==> 0 <= next[k].face < |dice[k].die.faces|)
    && (forall k :: 0 <= k < j ==> dice[k].H() == next[k])
    && (forall k :: j <= k < |dice| ==> dice[k].H() == prev[k])
    && points == total + FaceSum(Configs(dice), next, j)
  }

  /** The body of `solve1`'s inner loop for die `j`: roll it and add the value
      to the running total of the round. */
  method RollOne(dice: seq<DieRoll>, j: nat, total: int, points: int,
                 ghost prev: seq<Fingerprint>, ghost next: seq<Fingerprint>)
    returns (points': int)
    requires ValidDice(dice) && j < |dice|
    requires RoundState(dice, total, prev, next, j, points)
    requires forall k :: 0 <= k < |dice| ==> next[k] == Step(prev[k], dice[k].die.seed, |dice[k].die.faces|)
    modifies dice[j].state
    ensures RoundState(dice, total, prev, next, j + 1, points')
  {
    DistinctStatesAt(dice, j);
    var v := dice[j].Roll();
    points' := points + v;
  }

  /** One round of `solve1`: every die rolls once, in list order, each taking
      its state from `prev` to `next`, and the values rolled are added to the
      running total. */
  method RollRound(dice: seq<DieRoll>, total: int, ghost prev: seq<Fingerprint>, ghost next: seq<Fingerprint>)
    returns (points: int)
    requires ValidDice(dice) && |prev| == |next| == |dice|
    requires forall k :: 0 <= k < |dice| ==> next[k] == Step(prev[k], dice[k].die.seed, |dice[k].die.faces|)
    requires forall k :: 0 <= k < |dice| ==> 0 <= next[k].face < |dice[k].die.faces|
    requires forall k :: 0 <= k < |dice| ==> dice[k].H() == prev[k]
    modifies States(dice)
    ensures forall k :: 0 <= k < |dice| ==> dice[k].H() == next[k]
    ensures points == total + FaceSum(Configs(dice), next, |dice|)
  {
    points := total;
    for j := 0 to |dice|
      invariant RoundState(dice, total, prev, next, j, points)
    {
      points := RollOne(dice, j, total, points, prev, next);
    }
  }

  /** The body of `solve1`'s outer loop: round `r` of rolls, taking the
      running total from `Points` after `r - 1` rounds to `Points` after `r`. */
  method PlayRound(dice: seq<DieRoll>, total: int, ghost cs: seq<Die>, ghost fps: seq<Fingerprint>, ghost r: nat)
    returns (total': int)
    requires ValidDice(dice) && cs == Configs(dice) && |fps| == |dice| && r >= 1
    requires forall k :: 0 <= k < |dice| ==> dice[k].H() == After(cs[k], fps[k], r - 1)
    requires total == Points(cs, fps, r - 1)
    modifies States(dice)
    ensures forall k :: 0 <= k < |dice| ==> dice[k].H() == After(cs[k], fps[k], r)
    ensures total' == Points(cs, fps, r)
  {
    ghost var prev := seq(|dice|, k requires 0 <= k < |dice| => After(cs[k], fps[k], r - 1));
    ghost var next := seq(|dice|, k requires 0 <= k < |dice| => After(cs[k], fps[k], r));
    assert forall k :: 0 <= k < |dice| ==> next[k] == Step(prev[k], cs[k].seed, |cs[k].faces|);
    FaceSumRound(cs, fps, r, next, |dice|);
    total' := RollRound(dice, total, prev, next);
  }

  /** The running total stays below the target for one more round count. */
  lemma ShortOfTarget(cs: seq<Die>, fps: seq<Fingerprint>, minPoints: int, n: nat)
    requires |cs| == |fps| && AllRollable(cs)
    requires forall t :: 0 <= t < n ==> Points(cs, fps, t) < minPoints
    requires Points(cs, fps, n) < minPoints
    ensures forall t :: 0 <= t < n + 1 ==> Points(cs, fps, t) < minPoints
  {
  }

  /** `solve1`: the number of full rounds until the running total reaches
      `minPoints`. The source loops forever when the total never gets there; the
      ghost `bound` is a number of rounds after which the caller knows it has. */
  method Solve1(dice: seq<DieRoll>, minPoints: int, ghost bound: nat) returns (numRolls: nat)
    requires ValidDice(dice)
    requires Points(Configs(dice), Fingerprints(dice), bound) >= minPoints
    modifies States(dice)
    ensures Points(Configs(dice), old(Fingerprints(dice)), numRolls) >= minPoints
    ensures forall t :: 0 <= t < numRolls ==> Points(Configs(dice), old(Fingerprints(dice)), t) < minPoints
    ensures minPoints <= 0 ==> numRolls == 0
    ensures forall k :: 0 <= k < |dice| ==> dice[k].H() == After(dice[k].die, old(dice[k].H()), numRolls)
  {
    ghost var cs, fps := Configs(dice), Fingerprints(dice);
    numRolls := 0;
    var totalPoints := 0;
    while totalPoints < minPoints
      invariant numRolls <= bound
      invariant totalPoints == Points(cs, fps, numRolls)
      invariant forall t :: 0 <= t < numRolls ==> Points(cs, fps, t) < minPoints
      invariant forall k :: 0 <= k < |dice| ==> dice[k].H() == After(cs[k], fps[k], numRolls)
      decreases bound - numRolls
    {
      assert Points(cs, fps, numRolls) < minPoints <= Points(cs, fps, bound);
      ShortOfTarget(cs, fps, minPoints, numRolls);
      numRolls := numRolls + 1;
      totalPoints := PlayRound(dice, totalPoints, cs, fps, numRolls);
    }
  }

  // ---------------------------------------------------------------------------
  // solve2: the race along a shared track
  // ---------------------------------------------------------------------------

  /** The track position of die `d` after `k` of its rolls from `fp`: it advances
      by one exactly when the roll equals the track symbol at the position, and
      it stays at `|track|` once there. */
  function Position(d: Die, fp: Fingerprint, track: seq<int>, k: nat): (p: nat)
    requires Rollable(d)
    ensures p <= |track|
  {
    if k == 0 then 0
    else
      var p := Position(d, fp, track, k - 1);
      if p >= |track| then p
      else if RollValue(d, fp, k) == track[p] then p + 1
      else p
  }

  /** The position never decreases, and once the end is reached it is kept. */
  lemma {:induction false} PositionMonotone(d: Die, fp: Fingerprint, track: seq<int>, j: nat, k: nat)
    requires Rollable(d) && j <= k
    ensures Position(d, fp, track, j) <= Position(d, fp, track, k)
    ensures Position(d, fp, track, j) >= |track| ==> Position(d, fp, track, k) == |track|
  {
    if j < k {
      PositionMonotone(d, fp, track, j, k - 1);
    }
  }

  /** The least number of rolls, searched from `k` up to `bound`, after which the
      die has reached the end of the track. */
  function FinishFrom(d: Die, fp: Fingerprint, track: seq<int>, k: nat, bound: nat): (t: nat)
    requires Rollable(d) && k <= bound
    ensures k <= t <= bound
    ensures forall j :: k <= j < t ==> Position(d, fp, track, j) < |track|
    ensures t < bound ==> Position(d, fp, track, t) >= |track|
    decreases bound - k
  {
    if k == bound || Position(d, fp, track, k) >= |track| then k
    else FinishFrom(d, fp, track, k + 1, bound)
  }

  /** The number of rolls die `d` needs to finish the track. */
  function FinishTime(d: Die, fp: Fingerprint, track: seq<int>, bound: nat): (t: nat)
    requires Rollable(d)
    requires Position(d, fp, track, bound) >= |track|
    ensures t <= bound && Position(d, fp, track, t) >= |track|
    ensures forall j :: 0 <= j < t ==> Position(d, fp, track, j) < |track|
  {
    FinishFrom(d, fp, track, 0, bound)
  }

  /** The finish times of a list of dice. */
  function FinishTimes(cs: seq<Die>, fps: seq<Fingerprint>, track: seq<int>, bound: nat): (ts: seq<nat>)
    requires |cs| == |fps| && AllRollable(cs)
    requires forall k :: 0 <= k < |cs| ==> Position(cs[k], fps[k], track, bound) >= |track|
    ensures |ts| == |cs|
    ensures forall k :: 0 <= k < |cs| ==> ts[k] == FinishTime(cs[k], fps[k], track, bound)
  {
    seq(|cs|, k requires 0 <= k < |cs| => FinishTime(cs[k], fps[k], track, bound))
  }

  /** The 1-based indices, in ascending order, of the first `j` dice whose finish
      time is `t`: a die needing `t` rolls is recorded in turn `t + 1`. */
  function Finishers(ts: seq<nat>, t: nat, j: nat): seq<int>
    requires j <= |ts|
  {
    if j == 0 then []
    else if ts[j - 1] == t then Finishers(ts, t, j - 1) + [j]
    else Finishers(ts, t, j - 1)
  }

  /** Exactly the dice with finish time `t` are listed, in ascending order. */
  lemma {:induction false} FinishersExact(ts: seq<nat>, t: nat, j: nat)
    requires j <= |ts|
    ensures forall p :: 0 <= p < |Finishers(ts, t, j)| ==>
              1 <= Finishers(ts, t, j)[p] <= j && ts[Finishers(ts, t, j)[p] - 1] == t
    ensures forall p, q :: 0 <= p < q < |Finishers(ts, t, j)| ==> Finishers(ts, t, j)[p] < Finishers(ts, t, j)[q]
    ensures forall k :: 0 <= k < j && ts[k] == t ==> k + 1 in Finishers(ts, t, j)
  {
    if j > 0 {
      FinishersExact(ts, t, j - 1);
    }
  }

  /** The recorded order after `turns` turns of the race. */
  function RaceOrder(ts: seq<nat>, turns: nat): seq<int>
  {
    if turns == 0 then [] else RaceOrder(ts, turns - 1) + Finishers(ts, turns - 1, |ts|)
  }

  /** Die `x` (1-based) is listed before die `y` in the race order: it needs
      fewer rolls, or as many and has the smaller index. */
  predicate ListedBefore(ts: seq<nat>, x: int, y: int)
    requires 1 <= x <= |ts| && 1 <= y <= |ts|
  {
    ts[x - 1] < ts[y - 1] || (ts[x - 1] == ts[y - 1] && x < y)
  }

  /** Every recorded die is a valid 1-based index of a die that finished
      within the turns played. */
  lemma {:induction false} RaceOrderBounds(ts: seq<nat>, turns: nat)
    ensures forall p :: 0 <= p < |RaceOrder(ts, turns)| ==>
              1 <= RaceOrder(ts, turns)[p] <= |ts| && ts[RaceOrder(ts, turns)[p] - 1] < turns
  {
    if turns > 0 {
      RaceOrderBounds(ts, turns - 1);
      FinishersExact(ts, turns - 1, |ts|);
      var o, f := RaceOrder(ts, turns - 1), Finishers(ts, turns - 1, |ts|);
      var r := o + f;
      assert RaceOrder(ts, turns) == r;
      forall p | 0 <= p < |r|
        ensures 1 <= r[p] <= |ts| && ts[r[p] - 1] < turns
      {
        if p < |o| {
          assert r[p] == o[p];
        } else {
          assert r[p] == f[p - |o|];
        }
      }
    }
  }

  /** Every die that finished within the turns played is recorded. */
  lemma {:induction false} RaceOrderComplete(ts: seq<nat>, turns: nat)
    ensures forall k :: 0 <= k < |ts| && ts[k] < turns ==> k + 1 in RaceOrder(ts, turns)
  {
    if turns > 0 {
      RaceOrderComplete(ts, turns - 1);
      FinishersExact(ts, turns - 1, |ts|);
      var o, f := RaceOrder(ts, turns - 1), Finishers(ts, turns - 1, |ts|);
      assert RaceOrder(ts, turns) == o + f;
      forall k | 0 <= k < |ts| && ts[k] < turns
        ensures k + 1 in o + f
      {
        if ts[k] < turns - 1 {
          assert k + 1 in o;
        } else {
          assert k + 1 in f;
        }
      }
    }
  }

  /** The race order is by finish time, ties in index order. */
  lemma {:induction false} RaceOrderSorted(ts: seq<nat>, turns: nat)
    ensures forall p :: 0 <= p < |RaceOrder(ts, turns)| ==> 1 <= RaceOrder(ts, turns)[p] <= |ts|
    ensures forall p, q :: 0 <= p < q < |RaceOrder(ts, turns)| ==>
              ListedBefore(ts, RaceOrder(ts, turns)[p], RaceOrder(ts, turns)[q])
  {
    RaceOrderBounds(ts, turns);
    if turns > 0 {
      RaceOrderSorted(ts, turns - 1);
      RaceOrderBounds(ts, turns - 1);
      FinishersExact(ts, turns - 1, |ts|);
      var o, f := RaceOrder(ts, turns - 1), Finishers(ts, turns - 1, |ts|);
      var r := o + f;
      assert RaceOrder(ts, turns) == r;
      forall p, q | 0 <= p < q < |r|
        ensures ListedBefore(ts, r[p], r[q])
      {
        if q < |o| {
          assert r[p] == o[p] && r[q] == o[q];
        } else if p < |o| {
          assert r[p] == o[p] && r[q] == f[q - |o|];
        } else {
          assert r[p] == f[p - |o|] && r[q] == f[q - |o|];
        }
      }
    }
  }

  /** Turns after the last finisher add nothing to the order. */
  lemma {:induction false} RaceOrderStable(ts: seq<nat>, turns: nat, later: nat)
    requires forall k :: 0 <= k < |ts| ==> ts[k] < turns
    requires turns <= later
    ensures RaceOrder(ts, later) == RaceOrder(ts, turns)
  {
    if turns < later {
      RaceOrderStable(ts, turns, later - 1);
      NoLateFinishers(ts, later - 1, |ts|);
    }
  }

  lemma {:induction false} NoLateFinishers(ts: seq<nat>, t: nat, j: nat)
    requires j <= |ts|
    requires forall k :: 0 <= k < j ==> ts[k] < t
    ensures Finishers(ts, t, j) == []
  {
    if j > 0 {
      NoLateFinishers(ts, t, j - 1);
    }
  }

  /** Once every die has finished, the order lists each die exactly once. */
  lemma RaceOrderPermutation(ts: seq<nat>, turns: nat)
    requires forall k :: 0 <= k < |ts| ==> ts[k] < turns
    ensures |RaceOrder(ts, turns)| == |ts|
    ensures forall x :: x in RaceOrder(ts, turns) <==> 1 <= x <= |ts|
    ensures forall p, q :: 0 <= p < q < |RaceOrder(ts, turns)| ==>
              RaceOrder(ts, turns)[p] != RaceOrder(ts, turns)[q]
  {
    RaceOrderBounds(ts, turns);
    RaceOrderComplete(ts, turns);
    RaceOrderSorted(ts, turns);
    var o := RaceOrder(ts, turns);
    forall x | 1 <= x <= |ts|
      ensures x in o
    {
      assert ts[x - 1] < turns;
    }
    DistinctLength(o, |ts|);
  }

  /** The integers `lo <= k < hi`, as a set whose size is known. */
  function Interval(lo: int, hi: int): (s: set<int>)
    requires lo <= hi
    ensures forall k :: k in s <==> lo <= k < hi
    ensures |s| == hi - lo
    decreases hi - lo
  {
    if lo == hi then {} else Interval(lo, hi - 1) + {hi - 1}
  }

  /** The elements of a sequence, as a set. */
  function Elements(o: seq<int>): (s: set<int>)
    ensures forall x :: x in s <==> x in o
  {
    if o == [] then {} else Elements(o[..|o| - 1]) + {o[|o| - 1]}
  }

  /** Without duplicates, the element set is as large as the sequence. */
  lemma {:induction false} DistinctCard(o: seq<int>)
    requires forall p, q :: 0 <= p < q < |o| ==> o[p] != o[q]
    ensures |Elements(o)| == |o|
  {
    if o != [] {
      var init := o[..|o| - 1];
      DistinctCard(init);
      assert o[|o| - 1] !in init;
    }
  }

  /** A duplicate-free sequence of exactly the numbers 1..n has length n. */
  lemma DistinctLength(o: seq<int>, n: nat)
    requires forall x :: x in o <==> 1 <= x <= n
    requires forall p, q :: 0 <= p < q < |o| ==> o[p] != o[q]
    ensures |o| == n
  {
    DistinctCard(o);
    assert Elements(o) == Interval(1, n + 1);
  }

  /** A set of indices below `m` has at most `m` members, and exactly `m` when
      it holds all of them. */
  lemma {:induction false} SubsetOfRange(done: set<int>, m: nat)
    requires forall k :: k in done ==> 0 <= k < m
    ensures |done| <= m
    ensures |done| == m <==> forall k :: 0 <= k < m ==> k in done
  {
    if m == 0 {
      assert forall k :: k !in done;
      assert done == {};
    } else {
      var rest := done - {m - 1};
      SubsetOfRange(rest, m - 1);
      if m - 1 in done {
        assert done == rest + {m - 1};
      } else {
        assert rest == done;
      }
    }
  }

  /** Every die reaches the end of the track within `bound` rolls. */
  predicate AllFinish(cs: seq<Die>, fps: seq<Fingerprint>, track: seq<int>, bound: nat)
    requires |cs| == |fps| && AllRollable(cs)
  {
    forall k :: 0 <= k < |cs| ==> Position(cs[k], fps[k], track, bound) >= |track|
  }

  /** What the turn after `played` turns does to a die that needs `t` rolls to
      finish, from fingerprint `before` at track position `pos` to `after` at
      `pos'`: the die is found at the end exactly when `t <= played`, and then
      nothing changes; otherwise it rolls once and advances exactly on a match. */
  predicate TurnStep(d: Die, track: seq<int>, played: nat, t: nat,
                     before: Fingerprint, after: Fingerprint, pos: nat, pos': nat)
    requires Rollable(d)
  {
    && (pos >= |track| <==> t <= played)
    && (t <= played ==> after == before && pos' == pos)
    && (t > played ==>
          && after == Step(before, d.seed, |d.faces|)
          && pos' == if d.faces[after.face] == track[pos] then pos + 1 else pos)
  }

  /** The turn after `played` turns takes each die from `Min(played, t)` to
      `Min(played + 1, t)` rolls. */
  lemma DieTurn(d: Die, fp: Fingerprint, track: seq<int>, bound: nat, played: nat)
    requires Rollable(d) && Position(d, fp, track, bound) >= |track|
    ensures var t := FinishTime(d, fp, track, bound);
            TurnStep(d, track, played, t,
                     After(d, fp, Min(played, t)), After(d, fp, Min(played + 1, t)),
                     Position(d, fp, track, Min(played, t)), Position(d, fp, track, Min(played + 1, t)))
  {
  }

  /** The indices (0-based) among the first `j` dice whose finish time is `t`:
      the dice `solve2` adds to `done` in turn `t + 1`. */
  function FinishedSet(ts: seq<nat>, t: nat, j: nat): (s: set<int>)
    requires j <= |ts|
  {
    if j == 0 then {}
    else if ts[j - 1] == t then FinishedSet(ts, t, j - 1) + {j - 1}
    else FinishedSet(ts, t, j - 1)
  }

  lemma {:induction false} FinishedSetMembers(ts: seq<nat>, t: nat, j: nat)
    requires j <= |ts|
    ensures forall k :: k in FinishedSet(ts, t, j) <==> 0 <= k < j && ts[k] == t
  {
    if j > 0 {
      FinishedSetMembers(ts, t, j - 1);
    }
  }

  /** The body of `solve2`'s inner loop for die `i`, at track position `pos`:
      a die in `done` is skipped, a die at the end of the track is added to
      `done` and appended to the order, any other die rolls once and advances
      on a match. `positions'` collects the new positions of the dice so far.
      The ghost arguments give the die's fingerprint before and after the turn
      and the bookkeeping of the dice before it. */
  method TakeTurn(dice: seq<DieRoll>, track: seq<int>, played: nat, i: nat,
                  pos: nat, positions: seq<nat>, done: set<int>, finished: seq<int>,
                  ghost done0: set<int>, ghost ts: seq<nat>,
                  ghost before: Fingerprint, ghost after: Fingerprint, ghost nextPos: seq<nat>)
    returns (positions': seq<nat>, done': set<int>, finished': seq<int>)
    requires ValidDice(dice) && i < |dice| == |ts| == |nextPos|
    requires TurnStep(dice[i].die, track, played, ts[i], before, after, pos, nextPos[i])
    requires positions == nextPos[..i]
    requires i in done0 <==> ts[i] < played
    requires dice[i].H() == before
    requires done == done0 + FinishedSet(ts, played, i)
    requires finished == Finishers(ts, played, i)
    modifies dice[i].state
    ensures positions' == nextPos[..i + 1]
    ensures done' == done0 + FinishedSet(ts, played, i + 1)
    ensures finished' == Finishers(ts, played, i + 1)
    ensures dice[i].H() == after
  {
    FinishedSetMembers(ts, played, i);
    var pos' := pos;
    done', finished' := done, finished;
    if i in done {
    } else if pos >= |track| {
      done' := done + {i};
      finished' := finished + [i + 1];
    } else {
      var face := dice[i].Roll();
      if face == track[pos] {
        pos' := pos + 1;
      }
    }
    assert nextPos[..i + 1] == nextPos[..i] + [nextPos[i]];
    positions' := positions + [pos'];
  }

  /** The inner loop of `solve2`, the turn after `played` turns: every die in
      index order takes its step. `finished` lists the dice recorded in this
      turn, as 1-based indices in the order they are appended to the race
      order. The ghost sequences give each die's fingerprint before and after
      the turn and its position after it. */
  method RaceTurn(dice: seq<DieRoll>, track: seq<int>, played: nat,
                  positions: seq<nat>, done: set<int>,
                  ghost ts: seq<nat>, ghost prev: seq<Fingerprint>, ghost next: seq<Fingerprint>,
                  ghost nextPos: seq<nat>)
    returns (positions': seq<nat>, done': set<int>, finished: seq<int>)
    requires ValidDice(dice)
    requires |ts| == |prev| == |next| == |positions| == |nextPos| == |dice|
    requires forall k :: 0 <= k < |dice| ==>
               TurnStep(dice[k].die, track, played, ts[k], prev[k], next[k], positions[k], nextPos[k])
    requires forall k :: k in done <==> 0 <= k < |dice| && ts[k] < played
    requires forall k :: 0 <= k < |dice| ==> dice[k].H() == prev[k]
    modifies States(dice)
    ensures positions' == nextPos
    ensures done' == done + FinishedSet(ts, played, |dice|)
    ensures finished == Finishers(ts, played, |dice|)
    ensures forall k :: 0 <= k < |dice| ==> dice[k].H() == next[k]
  {
    positions', done', finished := [], done, [];
    for i := 0 to |dice|
      invariant positions' == nextPos[..i]
      invariant done' == done + FinishedSet(ts, played, i)
      invariant finished == Finishers(ts, played, i)
      invariant forall k :: 0 <= k < i ==> dice[k].H() == next[k]
      invariant forall k :: i <= k < |dice| ==> dice[k].H() == prev[k]
    {
      DistinctStatesAt(dice, i);
      positions', done', finished :=
        TakeTurn(dice, track, played, i, positions[i], positions', done', finished, done, ts, prev[i], next[i], nextPos);
    }
  }

  /** The state of `solve2` after `turn` turns: `done` holds the dice that
      finished in an earlier turn, `order` is the race order so far and every
      die has rolled, and moved along the track, once per turn until it finished. */
  ghost predicate RaceState(dice: seq<DieRoll>, track: seq<int>, cs: seq<Die>, fps: seq<Fingerprint>, ts: seq<nat>,
                      turn: nat, positions: seq<nat>, done: set<int>, order: seq<int>)
    reads States(dice)
  {
    && |cs| == |fps| == |ts| == |positions| == |dice|
    && AllRollable(cs)
    && (forall k :: k in done <==> 0 <= k < |dice| && ts[k] < turn)
    && order == RaceOrder(ts, turn)
    && (forall k :: 0 <= k < |dice| ==> positions[k] == Position(cs[k], fps[k], track, Min(turn, ts[k])))
    && (forall k :: 0 <= k < |dice| ==> dice[k].H() == After(cs[k], fps[k], Min(turn, ts[k])))
  }

  /** Before the turn after `played` turns: what each die is to do in it, from
      the state and the fingerprints and positions it must reach. */
  lemma TurnPlan(dice: seq<DieRoll>, track: seq<int>, cs: seq<Die>, fps: seq<Fingerprint>, ts: seq<nat>,
                 bound: nat, played: nat, positions: seq<nat>, done: set<int>, order: seq<int>,
                 prev: seq<Fingerprint>, next: seq<Fingerprint>, nextPos: seq<nat>)
    requires RaceState(dice, track, cs, fps, ts, played, positions, done, order)
    requires cs == Configs(dice) && AllFinish(cs, fps, track, bound) && ts == FinishTimes(cs, fps, track, bound)
    requires |prev| == |next| == |nextPos| == |dice|
    requires forall k :: 0 <= k < |dice| ==> prev[k] == After(cs[k], fps[k], Min(played, ts[k]))
    requires forall k :: 0 <= k < |dice| ==> next[k] == After(cs[k], fps[k], Min(played + 1, ts[k]))
    requires forall k :: 0 <= k < |dice| ==> nextPos[k] == Position(cs[k], fps[k], track, Min(played + 1, ts[k]))
    ensures |ts| == |positions| == |dice|
    ensures forall k :: 0 <= k < |dice| ==>
              TurnStep(dice[k].die, track, played, ts[k], prev[k], next[k], positions[k], nextPos[k])
    ensures forall k :: k in done <==> 0 <= k < |dice| && ts[k] < played
    ensures forall k :: 0 <= k < |dice| ==> dice[k].H() == prev[k]
  {
    forall k | 0 <= k < |dice|
      ensures TurnStep(dice[k].die, track, played, ts[k], prev[k], next[k], positions[k], nextPos[k])
    {
      DieTurn(cs[k], fps[k], track, bound, played);
    }
  }

  /** After the turn: the dice that finished in it join `done` and the race
      order, and the state is the one after `played + 1` turns. */
  lemma TurnRecorded(dice: seq<DieRoll>, track: seq<int>, cs: seq<Die>, fps: seq<Fingerprint>, ts: seq<nat>,
                     played: nat, done: set<int>, order: seq<int>,
                     next: seq<Fingerprint>, nextPos: seq<nat>, finished: seq<int>,
                     played': nat, positions': seq<nat>, done': set<int>, order': seq<int>)
    requires |cs| == |fps| == |ts| == |dice| && AllRollable(cs)
    requires |next| == |nextPos| == |dice|
    requires forall k :: 0 <= k < |dice| ==> next[k] == After(cs[k], fps[k], Min(played + 1, ts[k]))
    requires forall k :: 0 <= k < |dice| ==> nextPos[k] == Position(cs[k], fps[k], track, Min(played + 1, ts[k]))
    requires forall k :: k in done <==> 0 <= k < |dice| && ts[k] < played
    requires order == RaceOrder(ts, played)
    requires positions' == nextPos
    requires done' == done + FinishedSet(ts, played, |dice|)
    requires finished == Finishers(ts, played, |dice|)
    requires forall k :: 0 <= k < |dice| ==> dice[k].H() == next[k]
    requires played' == played + 1 && order' == order + finished
    ensures RaceState(dice, track, cs, fps, ts, played', positions', done', order')
  {
    FinishedSetMembers(ts, played, |dice|);
    assert RaceOrder(ts, played + 1) == RaceOrder(ts, played) + Finishers(ts, played, |ts|);
  }

  /** The body of `solve2`'s outer loop: the turn after `played` turns, taking
      positions, fingerprints, `done` and the order from their values after
      `played` turns to their values after `played + 1`. */
  method PlayTurn(dice: seq<DieRoll>, track: seq<int>, played: nat,
                  positions: seq<nat>, done: set<int>, order: seq<int>,
                  ghost cs: seq<Die>, ghost fps: seq<Fingerprint>, ghost ts: seq<nat>, ghost bound: nat)
    returns (positions': seq<nat>, done': set<int>, order': seq<int>, played': nat)
    requires ValidDice(dice) && cs == Configs(dice) && |fps| == |dice|
    requires AllFinish(cs, fps, track, bound) && ts == FinishTimes(cs, fps, track, bound)
    requires played <= bound
    requires RaceState(dice, track, cs, fps, ts, played, positions, done, order)
    modifies States(dice)
    ensures played' == played + 1 && played' <= bound + 1
    ensures RaceState(dice, track, cs, fps, ts, played', positions', done', order')
  {
    played' := played + 1;
    ghost var prev := seq(|dice|, k requires 0 <= k < |dice| => After(cs[k], fps[k], Min(played, ts[k])));
    ghost var next := seq(|dice|, k requires 0 <= k < |dice| => After(cs[k], fps[k], Min(played + 1, ts[k])));
    ghost var nextPos := seq(|dice|, k requires 0 <= k < |dice| => Position(cs[k], fps[k], track, Min(played + 1, ts[k])));
    TurnPlan(dice, track, cs, fps, ts, bound, played, positions, done, order, prev, next, nextPos);
    var finished;
    positions', done', finished := RaceTurn(dice, track, played, positions, done, ts, prev, next, nextPos);
    order' := order + finished;
    TurnRecorded(dice, track, cs, fps, ts, played, done, order, next, nextPos, finished,
                 played', positions', done', order');
  }

  /** A die that has not finished after `turn` turns finishes within `bound` rolls,
      so the race is still within its bound. */
  lemma RaceContinues(dice: seq<DieRoll>, track: seq<int>, cs: seq<Die>, fps: seq<Fingerprint>, ts: seq<nat>,
                      bound: nat, turn: nat, positions: seq<nat>, done: set<int>, order: seq<int>)
    requires |cs| == |fps| && AllRollable(cs) && AllFinish(cs, fps, track, bound)
    requires ts == FinishTimes(cs, fps, track, bound)
    requires RaceState(dice, track, cs, fps, ts, turn, positions, done, order)
    requires |done| < |dice|
    ensures turn <= bound
  {
    SubsetOfRange(done, |dice|);
  }

  /** Once every die is done, the order is the whole race order and every die has
      rolled exactly as often as it needed to finish. */
  lemma RaceOver(dice: seq<DieRoll>, track: seq<int>, cs: seq<Die>, fps: seq<Fingerprint>, ts: seq<nat>,
                 bound: nat, turn: nat, positions: seq<nat>, done: set<int>, order: seq<int>)
    requires RaceState(dice, track, cs, fps, ts, turn, positions, done, order)
    requires turn <= bound + 1 && |done| >= |dice|
    ensures order == RaceOrder(ts, bound + 1)
    ensures forall k :: 0 <= k < |dice| ==> dice[k].H() == After(cs[k], fps[k], ts[k])
  {
    SubsetOfRange(done, |dice|);
    RaceOrderStable(ts, turn, bound + 1);
  }

  /** The turn loop of `solve2`: turns are played until every die has reached
      the end of the track, which by `turn` `bound + 1` each one has. */
  method RunRace(dice: seq<DieRoll>, track: seq<int>,
                 ghost cs: seq<Die>, ghost fps: seq<Fingerprint>, ghost ts: seq<nat>, ghost bound: nat)
    returns (order: seq<int>)
    requires ValidDice(dice) && cs == Configs(dice) && |fps| == |dice|
    requires AllFinish(cs, fps, track, bound) && ts == FinishTimes(cs, fps, track, bound)
    requires forall k :: 0 <= k < |dice| ==> dice[k].H() == fps[k]
    modifies States(dice)
    ensures order == RaceOrder(ts, bound + 1)
    ensures forall k :: 0 <= k < |dice| ==> dice[k].H() == After(cs[k], fps[k], ts[k])
  {
    var positions: seq<nat> := seq(|dice|, _ => 0);
    var turn: nat := 0;
    order := [];
    var done: set<int> := {};
    while |done| < |dice|
      invariant turn <= bound + 1
      invariant RaceState(dice, track, cs, fps, ts, turn, positions, done, order)
      decreases bound + 1 - turn
    {
      RaceContinues(dice, track, cs, fps, ts, bound, turn, positions, done, order);
      positions, done, order, turn := PlayTurn(dice, track, turn, positions, done, order, cs, fps, ts, bound);
    }
    RaceOver(dice, track, cs, fps, ts, bound, turn, positions, done, order);
  }

  /** `solve2`: the order (1-based die indices) in which the dice reach the end of
      the track. The source loops forever if some die never finishes; the ghost
      `bound` is a number of rolls within which each one does. */
  method Solve2(dice: seq<DieRoll>, track: seq<int>, ghost bound: nat) returns (order: seq<int>)
    requires ValidDice(dice)
    requires AllFinish(Configs(dice), Fingerprints(dice), track, bound)
    modifies States(dice)
    ensures order == RaceOrder(FinishTimes(Configs(dice), old(Fingerprints(dice)), track, bound), bound + 1)
    ensures |order| == |dice| && forall x :: x in order <==> 1 <= x <= |dice|
    ensures forall p, q :: 0 <= p < q < |order| ==> order[p] != order[q]
    ensures forall k :: 0 <= k < |dice| ==>
              dice[k].H() == After(dice[k].die, old(dice[k].H()),
                                   FinishTimes(Configs(dice), old(Fingerprints(dice)), track, bound)[k])
  {
    ghost var cs, fps := Configs(dice), Fingerprints(dice);
    ghost var ts := FinishTimes(cs, fps, track, bound);
    order := RunRace(dice, track, cs, fps, ts, bound);
    RaceOrderPermutation(ts, bound + 1);
  }
}
