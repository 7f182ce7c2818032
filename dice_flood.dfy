/** The flood fill of the third puzzle's last part (`visit`, `solve3`): a die
    spreads over the cells of a grid, one roll per depth, moving from a cell
    whose value matched that depth's roll to the cell itself and its four
    orthogonal neighbours. */
module DiceFlood {
  import opened Results
  import opened Dice

  /** A grid cell (row, column). */
  type Cell = (int, int)

  /** An item of the work stack: (depth, cell). */
  type Item = (nat, Cell)

  /** A dedup key: (cell, fingerprint of the die). */
  type Key = (Cell, Fingerprint)

  /** The row length taken from the first row, as the source does. */
  function Width(g: seq<seq<int>>): nat
  {
    if |g| == 0 then 0 else |g[0]|
  }

  /** Every row is as long as the first. */
  predicate Rectangular(g: seq<seq<int>>)
  {
    forall r :: 0 <= r < |g| ==> |g[r]| == Width(g)
  }

  predicate InGrid(g: seq<seq<int>>, x: Cell)
  {
    0 <= x.0 < |g| && 0 <= x.1 < Width(g)
  }

  /** The value held by cell `x`. */
  function At(g: seq<seq<int>>, x: Cell): int
    requires Rectangular(g) && InGrid(g, x)
  {
    g[x.0][x.1]
  }

  /** All cells of the grid. */
  function Cells(g: seq<seq<int>>): set<Cell>
  {
    set r, c | 0 <= r < |g| && 0 <= c < Width(g) :: (r, c)
  }

  /** The candidate moves from a cell, in the order the source tries them:
      stay, down, up, right, left. */
  function Candidates(x: Cell): seq<Cell>
  {
    [x, (x.0 + 1, x.1), (x.0 - 1, x.1), (x.0, x.1 + 1), (x.0, x.1 - 1)]
  }

  /** The value of the die's roll for depth `k`: its (k+1)-th roll. */
  function Face(d: Die, fp: Fingerprint, k: nat): int
    requires Rollable(d)
  {
    RollValue(d, fp, k + 1)
  }

  /** The die's fingerprint right after its roll for depth `k`. */
  function Fp(d: Die, fp: Fingerprint, k: nat): Fingerprint
    requires Rollable(d)
  {
    After(d, fp, k + 1)
  }

  /** The fingerprint in the dedup key of an item at depth `s`: a seed (depth 0)
      is keyed by the first roll's fingerprint, and an item pushed from depth
      `s - 1` by that depth's fingerprint, so depths 0 and 1 share a key. */
  function KeyFp(d: Die, fp: Fingerprint, s: nat): Fingerprint
    requires Rollable(d)
  {
    Fp(d, fp, if s == 0 then 0 else s - 1)
  }

  /** Two depths share a dedup fingerprint only when they are equal or are
      depths 0 and 1. */
  lemma KeyFpDistinct(d: Die, fp: Fingerprint, a: nat, b: nat)
    requires Rollable(d)
    requires KeyFp(d, fp, a) == KeyFp(d, fp, b)
    ensures a == b || (a <= 1 && b <= 1)
  {
    var i, j := if a == 0 then 0 else a - 1, if b == 0 then 0 else b - 1;
    if i != j {
      FingerprintsDistinct(fp, d.seed, |d.faces|, i + 1, j + 1);
    }
  }

  /** Cell `x` is stacked at depth `k`, whatever the order the stack is worked
      in: at depth 0 when it equals the first roll, and at depth `k` > 0 when
      it is a candidate move (itself or an orthogonal neighbour) from a cell
      that was stacked at depth `k - 1` and matched that depth's roll -- except
      that a seed is never stacked again at depth 1, as the two share a dedup
      key. */
  predicate Stacked(g: seq<seq<int>>, d: Die, fp: Fingerprint, k: nat, x: Cell)
    requires Rectangular(g) && Rollable(d)
    decreases k, 1
  {
    InGrid(g, x) &&
    if k == 0 then At(g, x) == Face(d, fp, 0)
    else
      && !(k == 1 && Stacked(g, d, fp, 0, x))
      && (|| Hit(g, d, fp, k - 1, x)
          || Hit(g, d, fp, k - 1, (x.0 - 1, x.1))
          || Hit(g, d, fp, k - 1, (x.0 + 1, x.1))
          || Hit(g, d, fp, k - 1, (x.0, x.1 - 1))
          || Hit(g, d, fp, k - 1, (x.0, x.1 + 1)))
  }

  /** Cell `x` is stacked at depth `k` and holds that depth's roll, so it is
      added to the result and spreads. */
  predicate Hit(g: seq<seq<int>>, d: Die, fp: Fingerprint, k: nat, x: Cell)
    requires Rectangular(g) && Rollable(d)
    decreases k, 2
  {
    Stacked(g, d, fp, k, x) && At(g, x) == Face(d, fp, k)
  }

  /** Depth `k` stacks no cell. */
  ghost predicate Exhausted(g: seq<seq<int>>, d: Die, fp: Fingerprint, k: nat)
    requires Rectangular(g) && Rollable(d)
  {
    forall x :: InGrid(g, x) ==> !Stacked(g, d, fp, k, x)
  }

  /** Each in-grid candidate move from a hit cell is stacked one depth deeper,
      unless it is a seed and the hit was at depth 0. */
  lemma CandidateStacked(g: seq<seq<int>>, d: Die, fp: Fingerprint, k: nat, x: Cell, i: nat)
    requires Rectangular(g) && Rollable(d)
    requires Hit(g, d, fp, k, x) && i < 5 && InGrid(g, Candidates(x)[i])
    requires !(k == 0 && Stacked(g, d, fp, 0, Candidates(x)[i]))
    ensures Stacked(g, d, fp, k + 1, Candidates(x)[i])
  {
    var y := Candidates(x)[i];
    if i == 1 {
      assert (y.0 - 1, y.1) == x;
    } else if i == 2 {
      assert (y.0 + 1, y.1) == x;
    } else if i == 3 {
      assert (y.0, y.1 - 1) == x;
    } else if i == 4 {
      assert (y.0, y.1 + 1) == x;
    }
  }

  /** Once a depth stacks nothing, no later depth does. */
  lemma {:induction false} ExhaustedStays(g: seq<seq<int>>, d: Die, fp: Fingerprint, k: nat, j: nat)
    requires Rectangular(g) && Rollable(d)
    requires Exhausted(g, d, fp, k) && k <= j
    ensures Exhausted(g, d, fp, j)
  {
    if k < j {
      ExhaustedStays(g, d, fp, k, j - 1);
      forall x | InGrid(g, x)
        ensures !Stacked(g, d, fp, j, x)
      {
        forall y: Cell {:trigger Hit(g, d, fp, j - 1, y)}
          ensures !Hit(g, d, fp, j - 1, y)
        {
          if InGrid(g, y) {
            assert !Stacked(g, d, fp, j - 1, y);
          }
        }
      }
    }
  }

  /** Cell `x` was hit at some depth below `k`. */
  predicate ReachedBy(g: seq<seq<int>>, d: Die, fp: Fingerprint, k: nat, x: Cell)
    requires Rectangular(g) && Rollable(d)
  {
    k > 0 && (ReachedBy(g, d, fp, k - 1, x) || Hit(g, d, fp, k - 1, x))
  }

  /** A cell hit at a depth below `k` is reached. */
  lemma {:induction false} ReachedFrom(g: seq<seq<int>>, d: Die, fp: Fingerprint, k: nat, j: nat, x: Cell)
    requires Rectangular(g) && Rollable(d)
    requires j < k && Hit(g, d, fp, j, x)
    ensures ReachedBy(g, d, fp, k, x)
  {
    if j < k - 1 {
      ReachedFrom(g, d, fp, k - 1, j, x);
    }
  }

  /** The depth below `k` at which a reached cell was hit. */
  function ReachedDepth(g: seq<seq<int>>, d: Die, fp: Fingerprint, k: nat, x: Cell): (j: nat)
    requires Rectangular(g) && Rollable(d)
    requires ReachedBy(g, d, fp, k, x)
    ensures j < k && Hit(g, d, fp, j, x)
  {
    if Hit(g, d, fp, k - 1, x) then k - 1 else ReachedDepth(g, d, fp, k - 1, x)
  }

  /** The cells `visit` returns when depth `k` is the first to stack nothing:
      the cells hit at a depth below `k`, every one inside the grid and
      holding the roll of a depth at which it was stacked. */
  function Reached(g: seq<seq<int>>, d: Die, fp: Fingerprint, k: nat): set<Cell>
    requires Rectangular(g) && Rollable(d)
  {
    set x | x in Cells(g) && ReachedBy(g, d, fp, k, x)
  }

  /** The first depth from `j` on that stacks nothing, or `bound`. */
  ghost function FirstEmpty(g: seq<seq<int>>, d: Die, fp: Fingerprint, j: nat, bound: nat): (e: nat)
    requires Rectangular(g) && Rollable(d)
    ensures j <= e && (e >= bound || Exhausted(g, d, fp, e))
    ensures forall i :: j <= i < e ==> !Exhausted(g, d, fp, i)
    decreases bound - j
  {
    if j >= bound || Exhausted(g, d, fp, j) then j else FirstEmpty(g, d, fp, j + 1, bound)
  }

  /** The number of rolls `visit` makes: one, plus one for each later depth that
      stacks any cell. */
  ghost function RollsUsed(g: seq<seq<int>>, d: Die, fp: Fingerprint, bound: nat): nat
    requires Rectangular(g) && Rollable(d)
  {
    FirstEmpty(g, d, fp, 1, bound)
  }

  /** Every cell equal to the first roll is in the result. */
  lemma SeedsReached(g: seq<seq<int>>, d: Die, fp: Fingerprint, bound: nat)
    requires Rectangular(g) && Rollable(d)
    requires Exhausted(g, d, fp, bound)
    ensures forall x :: InGrid(g, x) && At(g, x) == Face(d, fp, 0) ==> x in Reached(g, d, fp, bound)
  {
    forall x | InGrid(g, x) && At(g, x) == Face(d, fp, 0)
      ensures x in Reached(g, d, fp, bound)
    {
      assert Hit(g, d, fp, 0, x);
      ReachedFrom(g, d, fp, bound, 0, x);
    }
  }

  /** When no cell equals the first roll the result is empty, and the die has
      rolled exactly once. */
  lemma NoSeeds(g: seq<seq<int>>, d: Die, fp: Fingerprint, bound: nat)
    requires Rectangular(g) && Rollable(d)
    requires forall x :: InGrid(g, x) ==> At(g, x) != Face(d, fp, 0)
    ensures Reached(g, d, fp, bound) == {}
    ensures RollsUsed(g, d, fp, bound) == 1
  {
    assert Exhausted(g, d, fp, 0);
    ExhaustedStays(g, d, fp, 0, 1);
    forall x | InGrid(g, x) && ReachedBy(g, d, fp, bound, x)
      ensures false
    {
      var j := ReachedDepth(g, d, fp, bound, x);
      ExhaustedStays(g, d, fp, 0, j);
    }
  }

  /** Every reached cell holds one of the die's faces. */
  lemma ReachedOnFaces(g: seq<seq<int>>, d: Die, fp: Fingerprint, k: nat)
    requires Rectangular(g) && Rollable(d)
    ensures forall x :: x in Reached(g, d, fp, k) ==> At(g, x) in d.faces
  {
    forall x | x in Reached(g, d, fp, k)
      ensures At(g, x) in d.faces
    {
      var j := ReachedDepth(g, d, fp, k, x);
    }
  }

  /** Depths past the first empty one add nothing: any exhausted depth gives
      the same set of reached cells. */
  lemma {:induction false} ReachedSettles(g: seq<seq<int>>, d: Die, fp: Fingerprint, e: nat, k: nat)
    requires Rectangular(g) && Rollable(d)
    requires Exhausted(g, d, fp, e) && e <= k
    ensures Reached(g, d, fp, k) == Reached(g, d, fp, e)
  {
    forall x | x in Reached(g, d, fp, k)
      ensures x in Reached(g, d, fp, e)
    {
      assert x in Cells(g) && ReachedBy(g, d, fp, k, x);
      assert InGrid(g, x);
      var j := ReachedDepth(g, d, fp, k, x);
      if e <= j {
        ExhaustedStays(g, d, fp, e, j);
      }
      ReachedFrom(g, d, fp, e, j, x);
    }
    forall x | x in Reached(g, d, fp, e)
      ensures x in Reached(g, d, fp, k)
    {
      assert x in Cells(g) && ReachedBy(g, d, fp, e, x);
      var j := ReachedDepth(g, d, fp, e, x);
      ReachedFrom(g, d, fp, k, j, x);
    }
  }

  /** The first empty depth from `j` is `e` when `e` is empty and no depth from
      `j` up to `e` is. */
  lemma {:induction false} FirstEmptyIs(g: seq<seq<int>>, d: Die, fp: Fingerprint, j: nat, bound: nat, e: nat)
    requires Rectangular(g) && Rollable(d)
    requires Exhausted(g, d, fp, bound) && Exhausted(g, d, fp, e) && j <= e
    requires forall i :: j <= i < e ==> !Exhausted(g, d, fp, i)
    ensures FirstEmpty(g, d, fp, j, bound) == e
    decreases e - j
  {
    if j < e {
      if bound <= j {
        ExhaustedStays(g, d, fp, bound, j);
      }
      FirstEmptyIs(g, d, fp, j + 1, bound, e);
    }
  }


  // ---------------------------------------------------------------------
  // The seed scan of `visit`

  /** Cell `x` comes before (r, c) in row-major order. */
  predicate Before(x: Cell, r: int, c: int)
  {
    x.0 < r || (x.0 == r && x.1 < c)
  }

  /** The state of the seed scan once every cell before (r, c) is looked at:
      the seeds found so far are exactly those cells equal to the first roll
      `v`, each stacked at depth 0 and keyed by the fingerprint `key`. */
  ghost predicate ScanState(g: seq<seq<int>>, v: int, key: Fingerprint, r: int, c: int,
                            queue: seq<Item>, seen: set<Cell>, seenState: set<Key>)
    requires Rectangular(g)
  {
    && (forall x: Cell :: x in seen <==> InGrid(g, x) && Before(x, r, c) && At(g, x) == v)
    && (forall it: Item :: it in queue <==> it.0 == 0 && it.1 in seen)
    && (forall k: Key :: k in seenState <==> k.1 == key && k.0 in seen)
  }

  /** Look at cell (r, c) during the seed scan. */
  method ScanCell(g: seq<seq<int>>, v: int, key: Fingerprint, r: int, c: int,
                  queue: seq<Item>, seen: set<Cell>, seenState: set<Key>)
    returns (queue': seq<Item>, seen': set<Cell>, seenState': set<Key>)
    requires Rectangular(g) && 0 <= r < |g| && 0 <= c < Width(g)
    requires ScanState(g, v, key, r, c, queue, seen, seenState)
    ensures ScanState(g, v, key, r, c + 1, queue', seen', seenState')
  {
    queue', seen', seenState' := queue, seen, seenState;
    if g[r][c] == v {
      queue' := queue + [(0, (r, c))];
      seenState' := seenState + {((r, c), key)};
      seen' := seen + {(r, c)};
    }
  }

  /** A finished row leaves the scan at the start of the next one. */
  lemma ScanRow(g: seq<seq<int>>, v: int, key: Fingerprint, r: int,
                queue: seq<Item>, seen: set<Cell>, seenState: set<Key>)
    requires Rectangular(g) && 0 <= r < |g|
    requires ScanState(g, v, key, r, Width(g), queue, seen, seenState)
    ensures ScanState(g, v, key, r + 1, 0, queue, seen, seenState)
  {
    forall x: Cell | InGrid(g, x)
      ensures Before(x, r, Width(g)) == Before(x, r + 1, 0)
    {
    }
  }

  /** The seed scan: stack every cell equal to the first roll `v` at depth 0. */
  method Scan(g: seq<seq<int>>, v: int, key: Fingerprint)
    returns (queue: seq<Item>, seen: set<Cell>, seenState: set<Key>)
    requires Rectangular(g)
    ensures ScanState(g, v, key, |g|, 0, queue, seen, seenState)
  {
    queue, seen, seenState := [], {}, {};
    for r := 0 to |g|
      invariant ScanState(g, v, key, r, 0, queue, seen, seenState)
    {
      for c := 0 to |g[r]|
        invariant ScanState(g, v, key, r, c, queue, seen, seenState)
      {
        queue, seen, seenState := ScanCell(g, v, key, r, c, queue, seen, seenState);
      }
      ScanRow(g, v, key, r, queue, seen, seenState);
    }
  }

  // ---------------------------------------------------------------------
  // The invariant of the work-stack loop of `visit`

  /** The dedup key `visit` records for an item. */
  function KeyOf(d: Die, fp: Fingerprint, it: Item): Key
    requires Rollable(d)
  {
    (it.1, KeyFp(d, fp, it.0))
  }

  /** Every item that could ever be stacked: depths below an empty depth
      `bound`, cells in the grid. */
  ghost function Universe(g: seq<seq<int>>, bound: nat): (u: set<Item>)
    ensures forall it: Item :: it.0 < bound && InGrid(g, it.1) ==> it in u
  {
    var u := set s: nat, r: int, c: int | s < bound && 0 <= r < |g| && 0 <= c < Width(g) :: (s, (r, c));
    assert forall it: Item :: it.0 < bound && InGrid(g, it.1) ==> (it.0, (it.1.0, it.1.1)) in u;
    u
  }

  /** How many items have not yet been stacked. */
  ghost function Unpushed(g: seq<seq<int>>, bound: nat, pushed: set<Item>): nat
  {
    |Universe(g, bound) - pushed|
  }

  /** Stacking an item of the universe not stacked before lowers the measure. */
  lemma UnpushedDrops(g: seq<seq<int>>, bound: nat, pushed: set<Item>, item: Item)
    requires item !in pushed && item.0 < bound && InGrid(g, item.1)
    ensures Unpushed(g, bound, pushed + {item}) < Unpushed(g, bound, pushed)
  {
    var U := Universe(g, bound);
    assert U - pushed == (U - (pushed + {item})) + {item};
  }

  /** `rolls[j]` is depth `j`'s roll and fingerprint, and the last depth
      rolled for stacks a cell (or is depth 0). */
  ghost predicate RollsMatch(g: seq<seq<int>>, d: Die, fp: Fingerprint, rolls: seq<(int, Fingerprint)>)
    requires Rectangular(g) && Rollable(d)
  {
    && 1 <= |rolls|
    && (forall j :: 0 <= j < |rolls| ==> rolls[j] == (Face(d, fp, j), Fp(d, fp, j)))
    && (|rolls| == 1 || !Exhausted(g, d, fp, |rolls| - 1))
  }

  /** Every stacked item is stacked at its depth in the sense of `Stacked`, at
      most one depth past the rolls made; every popped item was stacked and
      had its roll made. */
  ghost predicate PushedValid(g: seq<seq<int>>, d: Die, fp: Fingerprint, depths: nat,
                              pushed: set<Item>, popped: set<Item>)
    requires Rectangular(g) && Rollable(d)
  {
    && (forall it: Item :: it in pushed ==> it.0 <= depths && Stacked(g, d, fp, it.0, it.1))
    && (forall it: Item :: it in popped ==> it.0 < depths)
    && popped <= pushed
  }

  /** The stack holds stacked items, and every stacked item is on it or has
      been popped. */
  ghost predicate QueueValid(queue: seq<Item>, pushed: set<Item>, popped: set<Item>)
  {
    && (forall i :: 0 <= i < |queue| ==> queue[i] in pushed)
    && (forall it: Item :: it in pushed ==> it in popped || it in queue)
  }

  /** Every seed was stacked at depth 0. */
  ghost predicate SeedsPushed(g: seq<seq<int>>, d: Die, fp: Fingerprint, pushed: set<Item>)
    requires Rectangular(g) && Rollable(d)
  {
    forall x: Cell :: Stacked(g, d, fp, 0, x) ==> (0, x) in pushed
  }

  /** The keys record exactly the stacked items: each stacked item's key is
      there, and a key of depth `s` comes from an item of depth `s`, or of the
      other of depths 0 and 1. */
  ghost predicate KeysMatch(d: Die, fp: Fingerprint, pushed: set<Item>, seenState: set<Key>)
    requires Rollable(d)
  {
    && (forall it: Item :: it in pushed ==> KeyOf(d, fp, it) in seenState)
    && (forall x: Cell, s: nat {:trigger (x, KeyFp(d, fp, s))} :: (x, KeyFp(d, fp, s)) in seenState ==>
          (s, x) in pushed || (s <= 1 && (if s == 0 then 1 else 0, x) in pushed))
  }

  /** The result so far holds reached cells only, and every popped hit. */
  ghost predicate SeenValid(g: seq<seq<int>>, d: Die, fp: Fingerprint, bound: nat,
                            seen: set<Cell>, popped: set<Item>)
    requires Rectangular(g) && Rollable(d)
  {
    && (forall x: Cell :: x in seen ==> InGrid(g, x) && ReachedBy(g, d, fp, bound, x))
    && (forall it: Item :: it in popped && Hit(g, d, fp, it.0, it.1) ==> it.1 in seen)
  }

  /** The loop's invariant, apart from the spreading of popped hits.
      `rolls` is the list of (roll, fingerprint) per depth; `pushed` and
      `popped` (ghost) are the items ever stacked and ever taken off. */
  ghost predicate Core(g: seq<seq<int>>, d: Die, fp: Fingerprint, bound: nat,
                       rolls: seq<(int, Fingerprint)>, queue: seq<Item>, seen: set<Cell>,
                       seenState: set<Key>, pushed: set<Item>, popped: set<Item>)
    requires Rectangular(g) && Rollable(d)
  {
    && RollsMatch(g, d, fp, rolls)
    && PushedValid(g, d, fp, |rolls|, pushed, popped)
    && QueueValid(queue, pushed, popped)
    && SeedsPushed(g, d, fp, pushed)
    && KeysMatch(d, fp, pushed, seenState)
    && SeenValid(g, d, fp, bound, seen, popped)
  }

  /** The in-grid candidate moves of item `it` among the first `n` are keyed
      in `seenState` with the fingerprint of depth `it.0`. */
  ghost predicate Spreaded(g: seq<seq<int>>, d: Die, fp: Fingerprint, seenState: set<Key>, it: Item, n: nat)
    requires Rollable(d)
  {
    forall i :: 0 <= i < n && i < 5 && InGrid(g, Candidates(it.1)[i]) ==>
      (Candidates(it.1)[i], Fp(d, fp, it.0)) in seenState
  }

  /** Every popped hit outside `except` has keyed all its candidate moves. */
  ghost predicate Closed(g: seq<seq<int>>, d: Die, fp: Fingerprint, seenState: set<Key>,
                         popped: set<Item>, except: set<Item>)
    requires Rectangular(g) && Rollable(d)
  {
    forall it: Item :: it in popped && it !in except && Hit(g, d, fp, it.0, it.1) ==>
      Spreaded(g, d, fp, seenState, it, 5)
  }

  /** The invariant while the candidate moves of the popped hit `it` are
      tried: all but `it` spread, and `it` spread over its first `i`. */
  ghost predicate Spreading(g: seq<seq<int>>, d: Die, fp: Fingerprint, bound: nat,
                            rolls: seq<(int, Fingerprint)>, queue: seq<Item>, seen: set<Cell>,
                            seenState: set<Key>, pushed: set<Item>, popped: set<Item>, it: Item, i: nat)
    requires Rectangular(g) && Rollable(d)
  {
    && Core(g, d, fp, bound, rolls, queue, seen, seenState, pushed, popped)
    && Closed(g, d, fp, seenState, popped, {it})
    && Spreaded(g, d, fp, seenState, it, i)
  }

  /** A cell stacked at some depth shows that depth is below an empty depth. */
  lemma StackedBelow(g: seq<seq<int>>, d: Die, fp: Fingerprint, bound: nat, k: nat, x: Cell)
    requires Rectangular(g) && Rollable(d) && Exhausted(g, d, fp, bound)
    requires Stacked(g, d, fp, k, x)
    ensures k < bound
  {
    if bound <= k {
      ExhaustedStays(g, d, fp, bound, k);
    }
  }

  /** The seed scan establishes the loop's invariant, nothing popped yet. */
  lemma FloodStart(g: seq<seq<int>>, d: Die, fp: Fingerprint, bound: nat,
                   queue: seq<Item>, seen: set<Cell>, seenState: set<Key>, pushed: set<Item>)
    requires Rectangular(g) && Rollable(d) && Exhausted(g, d, fp, bound)
    requires ScanState(g, Face(d, fp, 0), Fp(d, fp, 0), |g|, 0, queue, seen, seenState)
    requires forall it: Item :: it in pushed <==> it in queue
    ensures Core(g, d, fp, bound, [(Face(d, fp, 0), Fp(d, fp, 0))], queue, seen, seenState, pushed, {})
    ensures Closed(g, d, fp, seenState, {}, {})
  {
    forall x: Cell | x in seen
      ensures InGrid(g, x) && ReachedBy(g, d, fp, bound, x)
    {
      assert Hit(g, d, fp, 0, x);
      StackedBelow(g, d, fp, bound, 0, x);
      ReachedFrom(g, d, fp, bound, 0, x);
    }
    forall x: Cell, s: nat | (x, KeyFp(d, fp, s)) in seenState
      ensures (s, x) in pushed || (s <= 1 && (if s == 0 then 1 else 0, x) in pushed)
    {
      KeyFpDistinct(d, fp, s, 0);
    }
  }

  // ---------------------------------------------------------------------
  // Popping an item

  /** `Pop`: take the top item off the stack, rolling the die for its depth
      when it is one past the rolls made. */
  method Pop(g: seq<seq<int>>, die: DieRoll, ghost fp: Fingerprint,
             rolls: seq<(int, Fingerprint)>, queue: seq<Item>, ghost pushed: set<Item>, ghost popped: set<Item>)
    returns (it: Item, rolls': seq<(int, Fingerprint)>, queue': seq<Item>, ghost popped': set<Item>)
    requires Rectangular(g) && Rollable(die.die) && |queue| > 0
    requires RollsMatch(g, die.die, fp, rolls) && PushedValid(g, die.die, fp, |rolls|, pushed, popped)
    requires QueueValid(queue, pushed, popped)
    requires die.H() == Fp(die.die, fp, |rolls| - 1)
    modifies die.state
    ensures queue' == queue[..|queue| - 1] && it == queue[|queue| - 1] && popped' == popped + {it}
    ensures rolls' == rolls || (it.0 == |rolls| && |rolls'| == |rolls| + 1)
    ensures RollsMatch(g, die.die, fp, rolls') && it.0 < |rolls'|
    ensures PushedValid(g, die.die, fp, |rolls'|, pushed, popped') && QueueValid(queue', pushed, popped')
    ensures Stacked(g, die.die, fp, it.0, it.1) && InGrid(g, it.1)
    ensures die.H() == Fp(die.die, fp, |rolls'| - 1)
  {
    it := queue[|queue| - 1];
    queue' := queue[..|queue| - 1];
    PopFacts(g, die.die, fp, |rolls|, queue, pushed, popped);
    rolls' := rolls;
    if it.0 >= |rolls| {
      var v := die.Roll();
      rolls' := rolls + [(v, die.H())];
      RollAppended(g, die.die, fp, rolls, v, die.H(), it);
    }
    popped' := popped + {it};
    PopValid(g, die.die, fp, |rolls|, |rolls'|, queue, pushed, popped);
  }

  /** The top of the stack is a stacked item, at most one depth past the
      rolls made. */
  lemma PopFacts(g: seq<seq<int>>, d: Die, fp: Fingerprint, depths: nat,
                 queue: seq<Item>, pushed: set<Item>, popped: set<Item>)
    requires Rectangular(g) && Rollable(d) && |queue| > 0
    requires PushedValid(g, d, fp, depths, pushed, popped) && QueueValid(queue, pushed, popped)
    ensures var it := queue[|queue| - 1];
            it.0 <= depths && Stacked(g, d, fp, it.0, it.1) && InGrid(g, it.1)
  {
  }

  /** The roll made for a new depth extends the cached rolls. */
  lemma RollAppended(g: seq<seq<int>>, d: Die, fp: Fingerprint, rolls: seq<(int, Fingerprint)>,
                     v: int, h: Fingerprint, it: Item)
    requires Rectangular(g) && Rollable(d) && RollsMatch(g, d, fp, rolls)
    requires it.0 == |rolls| && Stacked(g, d, fp, it.0, it.1)
    requires h == Step(Fp(d, fp, |rolls| - 1), d.seed, |d.faces|) && 0 <= h.face < |d.faces| && v == d.faces[h.face]
    ensures h == Fp(d, fp, |rolls|) && v == Face(d, fp, |rolls|)
    ensures RollsMatch(g, d, fp, rolls + [(v, h)])
  {
    assert h == Fp(d, fp, |rolls|);
    var rolls' := rolls + [(v, h)];
    forall j | 0 <= j < |rolls'|
      ensures rolls'[j] == (Face(d, fp, j), Fp(d, fp, j))
    {
      if j < |rolls| {
        assert rolls'[j] == rolls[j];
      }
    }
  }

  /** Popping the top item keeps the stacked items and the stack valid. */
  lemma PopValid(g: seq<seq<int>>, d: Die, fp: Fingerprint, depths: nat, depths': nat,
                 queue: seq<Item>, pushed: set<Item>, popped: set<Item>)
    requires Rectangular(g) && Rollable(d) && |queue| > 0 && depths <= depths'
    requires PushedValid(g, d, fp, depths, pushed, popped) && QueueValid(queue, pushed, popped)
    requires queue[|queue| - 1].0 < depths'
    ensures PushedValid(g, d, fp, depths', pushed, popped + {queue[|queue| - 1]})
    ensures QueueValid(queue[..|queue| - 1], pushed, popped + {queue[|queue| - 1]})
  {
    var q := queue[..|queue| - 1];
    forall it: Item | it in pushed && it !in popped + {queue[|queue| - 1]}
      ensures it in q
    {
      var i :| 0 <= i < |queue| && queue[i] == it;
      assert q[i] == it;
    }
  }

  // ---------------------------------------------------------------------
  // Stacking the candidate moves of a hit

  /** An in-grid candidate move of a hit whose key is new is stacked one depth
      deeper, and was never stacked before. */
  lemma PushStacked(g: seq<seq<int>>, d: Die, fp: Fingerprint, seenState: set<Key>,
                    pushed: set<Item>, it: Item, i: nat)
    requires Rectangular(g) && Rollable(d)
    requires SeedsPushed(g, d, fp, pushed) && KeysMatch(d, fp, pushed, seenState)
    requires i < 5 && Hit(g, d, fp, it.0, it.1) && InGrid(g, Candidates(it.1)[i])
    requires (Candidates(it.1)[i], Fp(d, fp, it.0)) !in seenState
    ensures (it.0 + 1, Candidates(it.1)[i]) !in pushed && Stacked(g, d, fp, it.0 + 1, Candidates(it.1)[i])
  {
    var y := Candidates(it.1)[i];
    assert KeyOf(d, fp, (it.0 + 1, y)) == (y, Fp(d, fp, it.0));
    if it.0 == 0 && Stacked(g, d, fp, 0, y) {
      assert false;
    }
    CandidateStacked(g, d, fp, it.0, it.1, i);
  }

  /** Recording the key of a newly stacked item keeps the keys matching the
      stacked items. */
  lemma PushKeys(d: Die, fp: Fingerprint, pushed: set<Item>, seenState: set<Key>, item: Item)
    requires Rollable(d) && KeysMatch(d, fp, pushed, seenState)
    ensures KeysMatch(d, fp, pushed + {item}, seenState + {KeyOf(d, fp, item)})
  {
    var S, P := seenState + {KeyOf(d, fp, item)}, pushed + {item};
    forall x: Cell, s: nat | (x, KeyFp(d, fp, s)) in S
      ensures (s, x) in P || (s <= 1 && (if s == 0 then 1 else 0, x) in P)
    {
      if (x, KeyFp(d, fp, s)) == KeyOf(d, fp, item) {
        KeyFpDistinct(d, fp, s, item.0);
        if s == item.0 {
          assert (s, x) == item;
          assert (s, x) in P;
        } else {
          assert (if s == 0 then 1 else 0, x) == item;
          assert (if s == 0 then 1 else 0, x) in P;
        }
      } else {
        assert (x, KeyFp(d, fp, s)) in seenState;
        assert (s, x) in pushed || (s <= 1 && (if s == 0 then 1 else 0, x) in pushed);
      }
    }
  }

  /** Stacking a new item keeps the stacked items valid. */
  lemma PushValid(g: seq<seq<int>>, d: Die, fp: Fingerprint, depths: nat,
                  pushed: set<Item>, popped: set<Item>, item: Item)
    requires Rectangular(g) && Rollable(d) && PushedValid(g, d, fp, depths, pushed, popped)
    requires item.0 <= depths && Stacked(g, d, fp, item.0, item.1)
    ensures PushedValid(g, d, fp, depths, pushed + {item}, popped)
  {
  }

  /** Stacking more items keeps every seed stacked. */
  lemma PushSeeds(g: seq<seq<int>>, d: Die, fp: Fingerprint, pushed: set<Item>, item: Item)
    requires Rectangular(g) && Rollable(d) && SeedsPushed(g, d, fp, pushed)
    ensures SeedsPushed(g, d, fp, pushed + {item})
  {
  }

  /** Stacking a new item keeps the stack matching the stacked items. */
  lemma PushQueue(queue: seq<Item>, pushed: set<Item>, popped: set<Item>, item: Item)
    requires QueueValid(queue, pushed, popped)
    ensures QueueValid(queue + [item], pushed + {item}, popped)
  {
    assert (queue + [item])[|queue|] == item;
  }

  /** Keying more items keeps every finished hit spread, and the current one
      spread as far as it was. */
  lemma KeysGrow(g: seq<seq<int>>, d: Die, fp: Fingerprint, seenState: set<Key>, key: Key,
                 popped: set<Item>, it: Item, i: nat)
    requires Rectangular(g) && Rollable(d)
    requires Closed(g, d, fp, seenState, popped, {it}) && Spreaded(g, d, fp, seenState, it, i)
    ensures Closed(g, d, fp, seenState + {key}, popped, {it}) && Spreaded(g, d, fp, seenState + {key}, it, i)
  {
  }

  /** Stacking candidate `i` of the popped hit `it`, when it is in the grid
      and its key is new, keeps the invariant, spreads `it` one candidate
      further, and stacks an item never stacked before. */
  lemma PushKept(g: seq<seq<int>>, d: Die, fp: Fingerprint, bound: nat,
                 rolls: seq<(int, Fingerprint)>, queue: seq<Item>, seen: set<Cell>,
                 seenState: set<Key>, pushed: set<Item>, popped: set<Item>, it: Item, i: nat,
                 y: Cell, state: Fingerprint)
    requires Rectangular(g) && Rollable(d) && Exhausted(g, d, fp, bound)
    requires i < 5 && it.0 < |rolls| && Hit(g, d, fp, it.0, it.1)
    requires y == Candidates(it.1)[i] && state == Fp(d, fp, it.0)
    requires Spreading(g, d, fp, bound, rolls, queue, seen, seenState, pushed, popped, it, i)
    requires 0 <= y.0 < |g| && 0 <= y.1 < Width(g) && (y, state) !in seenState
    ensures Spreading(g, d, fp, bound, rolls, queue + [(it.0 + 1, y)], seen, seenState + {(y, state)},
                      pushed + {(it.0 + 1, y)}, popped, it, i + 1)
    ensures Unpushed(g, bound, pushed + {(it.0 + 1, y)}) < Unpushed(g, bound, pushed)
  {
    var item, key := (it.0 + 1, y), (y, state);
    assert KeyOf(d, fp, item) == key;
    PushStacked(g, d, fp, seenState, pushed, it, i);
    PushValid(g, d, fp, |rolls|, pushed, popped, item);
    PushQueue(queue, pushed, popped, item);
    PushSeeds(g, d, fp, pushed, item);
    PushKeys(d, fp, pushed, seenState, item);
    KeysGrow(g, d, fp, seenState, key, popped, it, i);
    StackedBelow(g, d, fp, bound, item.0, y);
    UnpushedDrops(g, bound, pushed, item);
  }

  /** A candidate move outside the grid, or already keyed, needs no push. */
  lemma SkipKept(g: seq<seq<int>>, d: Die, fp: Fingerprint, bound: nat,
                 rolls: seq<(int, Fingerprint)>, queue: seq<Item>, seen: set<Cell>,
                 seenState: set<Key>, pushed: set<Item>, popped: set<Item>, it: Item, i: nat,
                 y: Cell, state: Fingerprint)
    requires Rectangular(g) && Rollable(d) && i < 5
    requires y == Candidates(it.1)[i] && state == Fp(d, fp, it.0)
    requires Spreading(g, d, fp, bound, rolls, queue, seen, seenState, pushed, popped, it, i)
    requires !(0 <= y.0 < |g| && 0 <= y.1 < Width(g) && (y, state) !in seenState)
    ensures Spreading(g, d, fp, bound, rolls, queue, seen, seenState, pushed, popped, it, i + 1)
  {
  }

  /** `TryPush`: stack candidate move `i` of the popped hit `it` if it is in the
      grid and its key is new. */
  method TryPush(g: seq<seq<int>>, ghost d: Die, ghost fp: Fingerprint, ghost bound: nat,
                 ghost rolls: seq<(int, Fingerprint)>, ghost seen: set<Cell>, ghost popped: set<Item>,
                 it: Item, state: Fingerprint, i: nat,
                 queue: seq<Item>, seenState: set<Key>, ghost pushed: set<Item>)
    returns (queue': seq<Item>, seenState': set<Key>, ghost pushed': set<Item>)
    requires Rectangular(g) && Rollable(d) && Exhausted(g, d, fp, bound)
    requires i < 5 && it.0 < |rolls| && Hit(g, d, fp, it.0, it.1) && state == Fp(d, fp, it.0)
    requires Spreading(g, d, fp, bound, rolls, queue, seen, seenState, pushed, popped, it, i)
    ensures Spreading(g, d, fp, bound, rolls, queue', seen, seenState', pushed', popped, it, i + 1)
    ensures (pushed' == pushed && queue' == queue) || Unpushed(g, bound, pushed') < Unpushed(g, bound, pushed)
    ensures var y := Candidates(it.1)[i];
            if InGrid(g, y) && (y, state) !in seenState
            then queue' == queue + [(it.0 + 1, y)] && seenState' == seenState + {(y, state)}
            else queue' == queue && seenState' == seenState
  {
    var y := Candidates(it.1)[i];
    queue', seenState', pushed' := queue, seenState, pushed;
    if 0 <= y.0 < |g| && 0 <= y.1 < Width(g) && (y, state) !in seenState {
      PushKept(g, d, fp, bound, rolls, queue, seen, seenState, pushed, popped, it, i, y, state);
      var item: Item := (it.0 + 1, y);
      seenState' := seenState + {(y, state)};
      queue' := queue + [item];
      pushed' := pushed + {item};
    } else {
      SkipKept(g, d, fp, bound, rolls, queue, seen, seenState, pushed, popped, it, i, y, state);
    }
  }

  /** Once every candidate of `it` is keyed, every popped hit is spread. */
  lemma AllSpread(g: seq<seq<int>>, d: Die, fp: Fingerprint, seenState: set<Key>, popped: set<Item>, it: Item)
    requires Rectangular(g) && Rollable(d)
    requires Closed(g, d, fp, seenState, popped, {it}) && Spreaded(g, d, fp, seenState, it, 5)
    ensures Closed(g, d, fp, seenState, popped, {})
  {
  }

  /** `Spread`: try the five candidate moves of the popped hit `it`, in the
      source's order. */
  method Spread(g: seq<seq<int>>, ghost d: Die, ghost fp: Fingerprint, ghost bound: nat,
                ghost rolls: seq<(int, Fingerprint)>, ghost seen: set<Cell>, ghost popped: set<Item>,
                it: Item, state: Fingerprint, queue: seq<Item>, seenState: set<Key>, ghost pushed: set<Item>)
    returns (queue': seq<Item>, seenState': set<Key>, ghost pushed': set<Item>)
    requires Rectangular(g) && Rollable(d) && Exhausted(g, d, fp, bound)
    requires it.0 < |rolls| && Hit(g, d, fp, it.0, it.1) && state == Fp(d, fp, it.0)
    requires Core(g, d, fp, bound, rolls, queue, seen, seenState, pushed, popped)
    requires Closed(g, d, fp, seenState, popped, {it})
    ensures Core(g, d, fp, bound, rolls, queue', seen, seenState', pushed', popped)
    ensures Closed(g, d, fp, seenState', popped, {})
    ensures (pushed' == pushed && queue' == queue) || Unpushed(g, bound, pushed') < Unpushed(g, bound, pushed)
  {
    queue', seenState', pushed' := queue, seenState, pushed;
    for i := 0 to 5
      invariant Spreading(g, d, fp, bound, rolls, queue', seen, seenState', pushed', popped, it, i)
      invariant (pushed' == pushed && queue' == queue) || Unpushed(g, bound, pushed') < Unpushed(g, bound, pushed)
    {
      queue', seenState', pushed' := TryPush(g, d, fp, bound, rolls, seen, popped, it, state, i, queue', seenState', pushed');
    }
    AllSpread(g, d, fp, seenState', popped, it);
  }

  /** A popped item that holds its depth's roll is a hit: adding its cell to
      the result keeps the invariant, with its own spreading still to do. */
  lemma HitPopped(g: seq<seq<int>>, d: Die, fp: Fingerprint, bound: nat,
                  rolls: seq<(int, Fingerprint)>, queue: seq<Item>, seen: set<Cell>,
                  seenState: set<Key>, pushed: set<Item>, popped: set<Item>, it: Item)
    requires Rectangular(g) && Rollable(d) && Exhausted(g, d, fp, bound)
    requires RollsMatch(g, d, fp, rolls) && it.0 < |rolls| && InGrid(g, it.1)
    requires rolls[it.0].0 == At(g, it.1) && Stacked(g, d, fp, it.0, it.1)
    requires PushedValid(g, d, fp, |rolls|, pushed, popped + {it}) && QueueValid(queue, pushed, popped + {it})
    requires SeedsPushed(g, d, fp, pushed) && KeysMatch(d, fp, pushed, seenState)
    requires SeenValid(g, d, fp, bound, seen, popped) && Closed(g, d, fp, seenState, popped, {})
    ensures Hit(g, d, fp, it.0, it.1)
    ensures Core(g, d, fp, bound, rolls, queue, seen + {it.1}, seenState, pushed, popped + {it})
    ensures Closed(g, d, fp, seenState, popped + {it}, {it})
  {
    assert rolls[it.0] == (Face(d, fp, it.0), Fp(d, fp, it.0));
    StackedBelow(g, d, fp, bound, it.0, it.1);
    ReachedFrom(g, d, fp, bound, it.0, it.1);
  }

  /** A popped item that does not hold its depth's roll changes nothing more. */
  lemma MissPopped(g: seq<seq<int>>, d: Die, fp: Fingerprint, bound: nat,
                   rolls: seq<(int, Fingerprint)>, queue: seq<Item>, seen: set<Cell>,
                   seenState: set<Key>, pushed: set<Item>, popped: set<Item>, it: Item)
    requires Rectangular(g) && Rollable(d)
    requires RollsMatch(g, d, fp, rolls) && it.0 < |rolls| && InGrid(g, it.1)
    requires rolls[it.0].0 != At(g, it.1)
    requires PushedValid(g, d, fp, |rolls|, pushed, popped + {it}) && QueueValid(queue, pushed, popped + {it})
    requires SeedsPushed(g, d, fp, pushed) && KeysMatch(d, fp, pushed, seenState)
    requires SeenValid(g, d, fp, bound, seen, popped) && Closed(g, d, fp, seenState, popped, {})
    ensures Core(g, d, fp, bound, rolls, queue, seen, seenState, pushed, popped + {it})
    ensures Closed(g, d, fp, seenState, popped + {it}, {})
  {
    assert rolls[it.0] == (Face(d, fp, it.0), Fp(d, fp, it.0));
    assert !Hit(g, d, fp, it.0, it.1);
  }

  /** One turn of the work-stack loop: pop an item, and when its cell holds
      its depth's roll add the cell and stack its candidate moves. */
  method Process(g: seq<seq<int>>, die: DieRoll, ghost fp: Fingerprint, ghost bound: nat,
                 rolls: seq<(int, Fingerprint)>, queue: seq<Item>, seen: set<Cell>,
                 seenState: set<Key>, ghost pushed: set<Item>, ghost popped: set<Item>)
    returns (rolls': seq<(int, Fingerprint)>, queue': seq<Item>, seen': set<Cell>,
             seenState': set<Key>, ghost pushed': set<Item>, ghost popped': set<Item>)
    requires Rectangular(g) && Rollable(die.die) && Exhausted(g, die.die, fp, bound) && |queue| > 0
    requires Core(g, die.die, fp, bound, rolls, queue, seen, seenState, pushed, popped)
    requires Closed(g, die.die, fp, seenState, popped, {})
    requires die.H() == Fp(die.die, fp, |rolls| - 1)
    modifies die.state
    ensures Core(g, die.die, fp, bound, rolls', queue', seen', seenState', pushed', popped')
    ensures Closed(g, die.die, fp, seenState', popped', {})
    ensures die.H() == Fp(die.die, fp, |rolls'| - 1)
    ensures (pushed' == pushed && |queue'| < |queue|) || Unpushed(g, bound, pushed') < Unpushed(g, bound, pushed)
  {
    var it;
    it, rolls', queue', popped' := Pop(g, die, fp, rolls, queue, pushed, popped);
    var face, state := rolls'[it.0].0, rolls'[it.0].1;
    seen', seenState', pushed' := seen, seenState, pushed;
    if face == g[it.1.0][it.1.1] {
      HitPopped(g, die.die, fp, bound, rolls', queue', seen, seenState, pushed, popped, it);
      seen' := seen + {it.1};
      queue', seenState', pushed' := Spread(g, die.die, fp, bound, rolls', seen', popped', it, state, queue', seenState, pushed);
    } else {
      MissPopped(g, die.die, fp, bound, rolls', queue', seen, seenState, pushed, popped, it);
    }
  }

  // ---------------------------------------------------------------------
  // The end of the loop

  /** A cell stacked past depth 0 is a candidate move of a cell hit one depth
      shallower. */
  lemma Source(g: seq<seq<int>>, d: Die, fp: Fingerprint, k: nat, x: Cell) returns (z: Cell, i: nat)
    requires Rectangular(g) && Rollable(d) && k > 0 && Stacked(g, d, fp, k, x)
    ensures Hit(g, d, fp, k - 1, z) && i < 5 && Candidates(z)[i] == x
  {
    if Hit(g, d, fp, k - 1, x) {
      z, i := x, 0;
    } else if Hit(g, d, fp, k - 1, (x.0 - 1, x.1)) {
      z, i := (x.0 - 1, x.1), 1;
    } else if Hit(g, d, fp, k - 1, (x.0 + 1, x.1)) {
      z, i := (x.0 + 1, x.1), 2;
    } else if Hit(g, d, fp, k - 1, (x.0, x.1 - 1)) {
      z, i := (x.0, x.1 - 1), 3;
    } else {
      z, i := (x.0, x.1 + 1), 4;
    }
  }

  /** A recorded key of depth `s` comes from an item stacked at depth `s`, or
      at the other of depths 0 and 1. */
  lemma KeyPushed(d: Die, fp: Fingerprint, pushed: set<Item>, seenState: set<Key>, x: Cell, s: nat)
    requires Rollable(d) && KeysMatch(d, fp, pushed, seenState)
    requires (x, KeyFp(d, fp, s)) in seenState
    ensures (s, x) in pushed || (s <= 1 && (if s == 0 then 1 else 0, x) in pushed)
  {
  }

  /** Once the stack is empty, every item stacked in the sense of `Stacked`
      has been popped: the walk missed nothing. */
  lemma {:induction false} AllPopped(g: seq<seq<int>>, d: Die, fp: Fingerprint, depths: nat,
                                     seenState: set<Key>, pushed: set<Item>, popped: set<Item>, k: nat, x: Cell)
    requires Rectangular(g) && Rollable(d)
    requires PushedValid(g, d, fp, depths, pushed, popped) && QueueValid([], pushed, popped)
    requires SeedsPushed(g, d, fp, pushed) && KeysMatch(d, fp, pushed, seenState)
    requires Closed(g, d, fp, seenState, popped, {})
    requires Stacked(g, d, fp, k, x)
    ensures (k, x) in popped
  {
    if k == 0 {
      assert (0, x) in pushed;
    } else {
      var z, i := Source(g, d, fp, k, x);
      AllPopped(g, d, fp, depths, seenState, pushed, popped, k - 1, z);
      assert Spreaded(g, d, fp, seenState, (k - 1, z), 5);
      assert (x, KeyFp(d, fp, k)) in seenState;
      KeyPushed(d, fp, pushed, seenState, x, k);
      if k == 1 {
        assert (0, x) !in pushed;
      }
    }
  }

  /** The number of rolls made is one past the last depth at which anything
      was stacked, when the stack is empty. */
  lemma DoneRolls(g: seq<seq<int>>, d: Die, fp: Fingerprint, bound: nat,
                  rolls: seq<(int, Fingerprint)>, seen: set<Cell>,
                  seenState: set<Key>, pushed: set<Item>, popped: set<Item>)
    requires Rectangular(g) && Rollable(d) && Exhausted(g, d, fp, bound)
    requires Core(g, d, fp, bound, rolls, [], seen, seenState, pushed, popped)
    requires Closed(g, d, fp, seenState, popped, {})
    requires forall j: nat, x: Cell :: Stacked(g, d, fp, j, x) ==> (j, x) in popped
    ensures RollsUsed(g, d, fp, bound) == |rolls|
  {
    var e := |rolls|;
    assert Exhausted(g, d, fp, e);
    forall i | 1 <= i < e
      ensures !Exhausted(g, d, fp, i)
    {
      if Exhausted(g, d, fp, i) {
        ExhaustedStays(g, d, fp, i, e - 1);
      }
    }
    FirstEmptyIs(g, d, fp, 1, bound, e);
  }

  /** With the stack empty, the result holds exactly the cells hit below the
      number of rolls made. */
  lemma DoneSeen(g: seq<seq<int>>, d: Die, fp: Fingerprint, bound: nat,
                 rolls: seq<(int, Fingerprint)>, seen: set<Cell>,
                 seenState: set<Key>, pushed: set<Item>, popped: set<Item>)
    requires Rectangular(g) && Rollable(d)
    requires Core(g, d, fp, bound, rolls, [], seen, seenState, pushed, popped)
    requires forall j: nat, x: Cell :: Stacked(g, d, fp, j, x) ==> (j, x) in popped
    ensures seen == Reached(g, d, fp, |rolls|)
  {
    forall x | x in seen
      ensures x in Reached(g, d, fp, |rolls|)
    {
      var j := ReachedDepth(g, d, fp, bound, x);
      assert (j, x) in popped;
      ReachedFrom(g, d, fp, |rolls|, j, x);
    }
    forall x | x in Reached(g, d, fp, |rolls|)
      ensures x in seen
    {
      var j := ReachedDepth(g, d, fp, |rolls|, x);
      assert (j, x) in popped;
    }
  }

  /** When the work-stack loop ends, the rolls made and the result are the
      ones `RollsUsed` and `Reached` describe. */
  lemma FloodDone(g: seq<seq<int>>, d: Die, fp: Fingerprint, bound: nat,
                  rolls: seq<(int, Fingerprint)>, seen: set<Cell>,
                  seenState: set<Key>, pushed: set<Item>, popped: set<Item>)
    requires Rectangular(g) && Rollable(d) && Exhausted(g, d, fp, bound)
    requires Core(g, d, fp, bound, rolls, [], seen, seenState, pushed, popped)
    requires Closed(g, d, fp, seenState, popped, {})
    ensures RollsUsed(g, d, fp, bound) == |rolls|
    ensures seen == Reached(g, d, fp, |rolls|)
  {
    forall j: nat, x: Cell | Stacked(g, d, fp, j, x)
      ensures (j, x) in popped
    {
      AllPopped(g, d, fp, |rolls|, seenState, pushed, popped, j, x);
    }
    DoneRolls(g, d, fp, bound, rolls, seen, seenState, pushed, popped);
    DoneSeen(g, d, fp, bound, rolls, seen, seenState, pushed, popped);
  }

  /** The number of rolls is at least one, the depth it names stacks nothing,
      and every depth from 1 up to it stacks something. */
  lemma UsedExhausted(g: seq<seq<int>>, d: Die, fp: Fingerprint, bound: nat)
    requires Rectangular(g) && Rollable(d) && Exhausted(g, d, fp, bound)
    ensures 1 <= RollsUsed(g, d, fp, bound) && Exhausted(g, d, fp, RollsUsed(g, d, fp, bound))
    ensures forall i :: 1 <= i < RollsUsed(g, d, fp, bound) ==> !Exhausted(g, d, fp, i)
  {
    var e := RollsUsed(g, d, fp, bound);
    if e >= bound {
      ExhaustedStays(g, d, fp, bound, e);
    }
  }

  /** The rolls made and the cells reached do not depend on which empty depth
      bounds the walk. */
  lemma UsedIndependent(g: seq<seq<int>>, d: Die, fp: Fingerprint, b1: nat, b2: nat)
    requires Rectangular(g) && Rollable(d)
    requires Exhausted(g, d, fp, b1) && Exhausted(g, d, fp, b2)
    ensures RollsUsed(g, d, fp, b1) == RollsUsed(g, d, fp, b2)
  {
    UsedExhausted(g, d, fp, b1);
    FirstEmptyIs(g, d, fp, 1, b2, RollsUsed(g, d, fp, b1));
  }

  // ---------------------------------------------------------------------
  // `visit` and `solve3`

  /** `visit`: the cells die `die` reaches on grid `g`. An empty grid fails
      before any roll, as reading its first row does. `bound` is a depth at
      which nothing is stacked; it exists when the walk ends. */
  method Visit(g: seq<seq<int>>, die: DieRoll, ghost bound: nat) returns (r: Result<set<Cell>>)
    requires Rectangular(g) && Rollable(die.die) && Exhausted(g, die.die, die.H(), bound)
    modifies die.state
    ensures |g| == 0 ==> r == Err(IndexError) && die.H() == old(die.H())
    ensures |g| > 0 ==>
              var used := RollsUsed(g, die.die, old(die.H()), bound);
              r == Ok(Reached(g, die.die, old(die.H()), used)) && die.H() == After(die.die, old(die.H()), used)
  {
    if |g| == 0 {
      return Err(IndexError);
    }
    ghost var d, fp := die.die, die.H();
    var v := die.Roll();
    var key := die.H();
    assert Iterate(fp, d.seed, |d.faces|, 0) == fp;
    var queue, seen, seenState := Scan(g, v, key);
    var rolls := [(v, key)];
    ghost var pushed: set<Item> := set it | it in queue;
    ghost var popped: set<Item> := {};
    FloodStart(g, d, fp, bound, queue, seen, seenState, pushed);
    while |queue| > 0
      invariant Core(g, d, fp, bound, rolls, queue, seen, seenState, pushed, popped)
      invariant Closed(g, d, fp, seenState, popped, {})
      invariant die.H() == Fp(d, fp, |rolls| - 1)
      decreases Unpushed(g, bound, pushed), |queue|
    {
      rolls, queue, seen, seenState, pushed, popped := Process(g, die, fp, bound, rolls, queue, seen, seenState, pushed, popped);
    }
    FloodDone(g, d, fp, bound, rolls, seen, seenState, pushed, popped);
    return Ok(seen);
  }

  /** The cells reached by the first `n` dice, die `k` starting from state
      `fps[k]` and walking until its first empty depth. */
  ghost function Covered(g: seq<seq<int>>, cs: seq<Die>, fps: seq<Fingerprint>, bounds: seq<nat>, n: nat): (s: set<Cell>)
    requires Rectangular(g) && n <= |cs| == |fps| == |bounds| && AllRollable(cs)
    ensures forall x :: x in s ==> InGrid(g, x)
    ensures forall x :: x in s <==>
              exists k :: 0 <= k < n && x in Reached(g, cs[k], fps[k], RollsUsed(g, cs[k], fps[k], bounds[k]))
  {
    if n == 0 then {}
    else Covered(g, cs, fps, bounds, n - 1) + Reached(g, cs[n - 1], fps[n - 1], RollsUsed(g, cs[n - 1], fps[n - 1], bounds[n - 1]))
  }

  /** The state of `solve3` once the first `i` dice have walked: `seen` holds
      the cells they reached, they have made the rolls their walks need, and
      the other dice are untouched. */
  ghost predicate SweepState(dice: seq<DieRoll>, g: seq<seq<int>>, cs: seq<Die>, fps: seq<Fingerprint>,
                             bounds: seq<nat>, i: nat, seen: set<Cell>)
    requires ValidDice(dice) && Rectangular(g) && cs == Configs(dice)
    requires |fps| == |bounds| == |dice| && i <= |dice|
    reads States(dice)
  {
    && seen == Covered(g, cs, fps, bounds, i)
    && forall k :: 0 <= k < |dice| ==>
         dice[k].H() == if k < i then After(cs[k], fps[k], RollsUsed(g, cs[k], fps[k], bounds[k])) else fps[k]
  }

  /** The body of `solve3`'s loop: die `i` walks the grid and its cells join
      the result, or the walk fails on an empty grid and nothing changes. */
  method VisitOne(dice: seq<DieRoll>, g: seq<seq<int>>, ghost cs: seq<Die>, ghost fps: seq<Fingerprint>,
                  ghost bounds: seq<nat>, i: nat, seen: set<Cell>)
    returns (v: Result<set<Cell>>)
    requires ValidDice(dice) && Rectangular(g) && cs == Configs(dice)
    requires |fps| == |bounds| == |dice| && i < |dice|
    requires Exhausted(g, cs[i], fps[i], bounds[i])
    requires SweepState(dice, g, cs, fps, bounds, i, seen)
    modifies dice[i].state
    ensures v.Ok? <==> |g| > 0
    ensures v.Err? ==> v == Err(IndexError) && SweepState(dice, g, cs, fps, bounds, i, seen)
    ensures v.Ok? ==> SweepState(dice, g, cs, fps, bounds, i + 1, seen + v.value)
  {
    DistinctStatesAt(dice, i);
    v := Visit(g, dice[i], bounds[i]);
  }

  /** `solve3`: the number of cells reached by some die, each die walking the
      grid in list order from its current state. */
  method Solve3(dice: seq<DieRoll>, g: seq<seq<int>>, ghost bounds: seq<nat>) returns (r: Result<nat>)
    requires ValidDice(dice) && Rectangular(g) && |bounds| == |dice|
    requires forall k :: 0 <= k < |dice| ==> Exhausted(g, dice[k].die, dice[k].H(), bounds[k])
    modifies States(dice)
    ensures |dice| > 0 && |g| == 0 ==> r == Err(IndexError)
    ensures |g| == 0 ==> forall k :: 0 <= k < |dice| ==> dice[k].H() == old(dice[k].H())
    ensures |dice| == 0 || |g| > 0 ==> r == Ok(|Covered(g, Configs(dice), old(Fingerprints(dice)), bounds, |dice|)|)
    ensures |g| > 0 ==> forall k :: 0 <= k < |dice| ==>
              dice[k].H() == After(dice[k].die, old(dice[k].H()), RollsUsed(g, dice[k].die, old(dice[k].H()), bounds[k]))
  {
    ghost var cs, fps := Configs(dice), Fingerprints(dice);
    var seen: set<Cell> := {};
    for i := 0 to |dice|
      invariant |g| > 0 || i == 0
      invariant SweepState(dice, g, cs, fps, bounds, i, seen)
    {
      var v := VisitOne(dice, g, cs, fps, bounds, i, seen);
      match v
      case Err(e) =>
        return Err(e);
      case Ok(s) =>
        seen := seen + s;
    }
    return Ok(|seen|);
  }
}
