/** The first puzzle's coin drop: a token falls down a nail grid from a slot
    at the top; each nail (`*`) it meets consumes one letter of its
    instruction and deflects it one column right (`R`) or left (any other
    letter), bouncing back by two at the edges. The slot it lands in gives the
    payout. `roll`, `solve1`, `compute_max_payout` and `solve2`. */
module Nails {
  import opened Results

  function Max(a: int, b: int): int
  {
    if a >= b then a else b
  }

  /** Python's `s[i]` on a string: a negative index counts from the end, and
      an index out of range raises `IndexError`. */
  function PyIndex(s: string, i: int): Result<char>
  {
    if 0 <= i < |s| then Ok(s[i])
    else if -|s| <= i < 0 then Ok(s[|s| + i])
    else Err(IndexError)
  }

  /** Every row is `width` characters long. */
  predicate Rectangular(grid: seq<string>, width: int)
  {
    forall h :: 0 <= h < |grid| ==> |grid[h]| == width
  }

  /** The column after a nail: one step by the instruction letter, then two
      back if that left the grid. */
  function Deflect(col: int, side: char, width: int): int
  {
    var c := col + if side == 'R' then 1 else -1;
    if c >= width then c - 2 else if c < 0 then c + 2 else c
  }

  /** The token's fall from row `h`, at column `col`, with `i` letters of the
      instruction used: the final column and letters used, or the exception
      that ends the fall. */
  function Walk(grid: seq<string>, instruction: string, width: int, h: nat, col: int, i: nat): (r: Result<(int, nat)>)
    ensures r.Err? ==> r.error == IndexError
    decreases |grid| - h
  {
    if h >= |grid| then Ok((col, i))
    else
      var cell := PyIndex(grid[h], col);
      if cell.Err? then Err(cell.error)
      else if cell.value != '*' then Walk(grid, instruction, width, h + 1, col, i)
      else if i >= |instruction| then Err(IndexError)
      else Walk(grid, instruction, width, h + 1, Deflect(col, instruction[i], width), i + 1)
  }

  /** The start column of 1-based `slot`. */
  function StartCol(slot: int): int
  {
    2 * (slot - 1)
  }

  /** The payout of a fall from `slot` that ended in column `col`: an odd
      column fails the source's assertion; otherwise twice the landing slot
      less the start slot, but never below zero. Python's `//` floors, as
      Dafny's `/` does for a positive divisor. */
  function Payout(slot: int, col: int): (r: Result<int>)
    ensures r.Ok? ==> r.value >= 0
  {
    if col % 2 != 0 then Err(AssertionError)
    else Ok(Max(2 * (col / 2 + 1) - slot, 0))
  }

  /** What `roll(slot, instruction, grid)` returns or raises. */
  function RollResult(slot: int, instruction: string, grid: seq<string>): (r: Result<int>)
    ensures r.Ok? ==> r.value >= 0
  {
    if |grid| == 0 then Err(IndexError)
    else
      var w := Walk(grid, instruction, |grid[0]|, 0, StartCol(slot), 0);
      if w.Err? then Err(w.error) else Payout(slot, w.value.0)
  }

  /** `roll`: drop a token from `slot` and return its payout. */
  method Roll(slot: int, instruction: string, grid: seq<string>) returns (r: Result<int>)
    ensures r == RollResult(slot, instruction, grid)
  {
    if |grid| == 0 {
      return Err(IndexError);
    }
    var col := StartCol(slot);
    var height: nat := 0;
    var i: nat := 0;
    var width := |grid[0]|;
    while height < |grid|
      invariant height <= |grid|
      invariant Walk(grid, instruction, width, height, col, i) == Walk(grid, instruction, width, 0, StartCol(slot), 0)
      decreases |grid| - height
    {
      var row := grid[height];
      if !(-|row| <= col < |row|) {
        return Err(IndexError);
      }
      var cell := if col < 0 then row[|row| + col] else row[col];
      if cell == '*' {
        if i >= |instruction| {
          return Err(IndexError);
        }
        var side := instruction[i];
        col := col + if side == 'R' then 1 else -1;
        if col >= width {
          col := col - 2;
        } else if col < 0 {
          col := col + 2;
        }
        i := i + 1;
      }
      height := height + 1;
    }
    if col % 2 != 0 {
      return Err(AssertionError);
    }
    var finalSlot := col / 2 + 1;
    r := Ok(Max(2 * finalSlot - slot, 0));
  }

  // ---------------------------------------------------------------------
  // Properties of the fall

  /** On a rectangular grid at least two columns wide, a fall that starts
      inside the grid stays inside it. */
  lemma {:induction false} WalkStays(grid: seq<string>, instruction: string, width: int, h: nat, col: int, i: nat)
    requires Rectangular(grid, width) && width >= 2 && 0 <= col < width
    ensures var w := Walk(grid, instruction, width, h, col, i); w.Ok? ==> 0 <= w.value.0 < width
    decreases |grid| - h
  {
    if h < |grid| && PyIndex(grid[h], col).Ok? {
      if PyIndex(grid[h], col).value != '*' {
        WalkStays(grid, instruction, width, h + 1, col, i);
      } else if i < |instruction| {
        WalkStays(grid, instruction, width, h + 1, Deflect(col, instruction[i], width), i + 1);
      }
    }
  }

  /** Each nail uses one letter and moves the token by an odd number of
      columns, so the column's parity changes exactly with the letters used,
      and at most one letter is used per row. */
  lemma {:induction false} WalkParity(grid: seq<string>, instruction: string, width: int, h: nat, col: int, i: nat)
    requires h <= |grid|
    ensures var w := Walk(grid, instruction, width, h, col, i);
            w.Ok? ==> (w.value.0 - col) % 2 == (w.value.1 - i) % 2 && i <= w.value.1 <= i + (|grid| - h)
    decreases |grid| - h
  {
    if h < |grid| && PyIndex(grid[h], col).Ok? {
      if PyIndex(grid[h], col).value != '*' {
        WalkParity(grid, instruction, width, h + 1, col, i);
      } else if i < |instruction| {
        var next := Deflect(col, instruction[i], width);
        WalkParity(grid, instruction, width, h + 1, next, i + 1);
        OddShift(col, next);
      }
    }
  }

  /** A deflection moves the token an odd number of columns. */
  lemma OddShift(col: int, next: int)
    requires next == col + 1 || next == col - 1 || next == col + 3 || next == col - 3
    ensures forall a: int, b: int {:trigger (a - col) % 2, (b - next) % 2} ::
              (a - next) % 2 == (b - 1) % 2 ==> (a - col) % 2 == b % 2
  {
  }

  /** On a rectangular grid at least two columns wide, a fall from inside the
      grid with enough letters for a nail in every row always completes. */
  lemma {:induction false} WalkCompletes(grid: seq<string>, instruction: string, width: int, h: nat, col: int, i: nat)
    requires Rectangular(grid, width) && width >= 2 && 0 <= col < width
    requires i + (|grid| - h) <= |instruction|
    ensures Walk(grid, instruction, width, h, col, i).Ok?
    decreases |grid| - h
  {
    if h < |grid| {
      assert PyIndex(grid[h], col).Ok?;
      if PyIndex(grid[h], col).value != '*' {
        WalkCompletes(grid, instruction, width, h + 1, col, i);
      } else {
        WalkCompletes(grid, instruction, width, h + 1, Deflect(col, instruction[i], width), i + 1);
      }
    }
  }

  /** The source's assertion that the final column is even fails exactly when
      the fall completes having used an odd number of letters. */
  lemma RollAssertion(slot: int, instruction: string, grid: seq<string>)
    requires |grid| > 0
    ensures RollResult(slot, instruction, grid) == Err(AssertionError) <==>
              var w := Walk(grid, instruction, |grid[0]|, 0, StartCol(slot), 0);
              w.Ok? && w.value.1 % 2 == 1
  {
    WalkParity(grid, instruction, |grid[0]|, 0, StartCol(slot), 0);
  }

  /** A token dropped from a slot of a rectangular grid at least two columns
      wide, with an instruction as long as the grid is tall, lands in a slot
      of the grid, or fails the parity assertion; it never indexes out of
      range. */
  lemma RollLands(slot: int, instruction: string, grid: seq<string>)
    requires |grid| > 0 && Rectangular(grid, |grid[0]|) && |grid[0]| >= 2
    requires 0 <= StartCol(slot) < |grid[0]| && |grid| <= |instruction|
    ensures RollResult(slot, instruction, grid) != Err(IndexError)
    ensures var w := Walk(grid, instruction, |grid[0]|, 0, StartCol(slot), 0);
            w.Ok? && 0 <= w.value.0 < |grid[0]|
  {
    var width := |grid[0]|;
    WalkCompletes(grid, instruction, width, 0, StartCol(slot), 0);
    WalkStays(grid, instruction, width, 0, StartCol(slot), 0);
  }

  // ---------------------------------------------------------------------
  // Accumulating outcomes

  /** The first `k` outcomes are successes. */
  predicate AllOk(rs: seq<Result<int>>, k: nat)
  {
    forall j :: 0 <= j < k && j < |rs| ==> rs[j].Ok?
  }

  /** A prefix of at least `k` outcomes starts with `k` successes exactly when
      the whole list does. */
  lemma PrefixOk(rs: seq<Result<int>>, n: nat, k: nat)
    requires k <= n <= |rs|
    ensures AllOk(rs[..n], k) <==> AllOk(rs, k)
  {
    assert forall j :: 0 <= j < k ==> rs[..n][j] == rs[j];
  }

  /** The sum of a list of outcomes, or the first exception among them. */
  function Total(rs: seq<Result<int>>): Result<int>
  {
    if |rs| == 0 then Ok(0)
    else
      var t := Total(rs[..|rs| - 1]);
      var last := rs[|rs| - 1];
      if t.Err? then Err(t.error)
      else if last.Err? then Err(last.error)
      else Ok(t.value + last.value)
  }

  /** The total is a number exactly when every outcome is. */
  lemma {:induction false} TotalOk(rs: seq<Result<int>>)
    ensures Total(rs).Ok? <==> AllOk(rs, |rs|)
  {
    if |rs| > 0 {
      var n := |rs| - 1;
      TotalOk(rs[..n]);
      PrefixOk(rs, n, n);
    }
  }

  /** The total of a prefix that ends in an exception is that exception; the
      total of a prefix that ends in a success adds it. */
  lemma TotalStep(rs: seq<Result<int>>, k: nat)
    requires k < |rs|
    ensures Total(rs[..k + 1]) ==
              if Total(rs[..k]).Err? then Total(rs[..k])
              else if rs[k].Err? then Err(rs[k].error)
              else Ok(Total(rs[..k]).value + rs[k].value)
  {
    assert rs[..k + 1][..k] == rs[..k];
  }

  /** The first exception of the list is the exception of the whole list. */
  lemma {:induction false} TotalFirstError(rs: seq<Result<int>>, k: nat)
    requires k < |rs| && rs[k].Err? && AllOk(rs, k)
    ensures Total(rs) == Err(rs[k].error)
  {
    var n := |rs| - 1;
    PrefixOk(rs, n, k);
    if k < n {
      assert rs[..n][k] == rs[k];
      TotalFirstError(rs[..n], k);
    } else {
      TotalOk(rs[..n]);
    }
  }

  /** One more outcome of the running total: an exception is the total's
      exception, a success is added. */
  lemma TotalPush(rs: seq<Result<int>>, k: nat, total: int, v: Result<int>)
    requires k < |rs| && Total(rs[..k]) == Ok(total) && rs[k] == v
    ensures v.Err? ==> Total(rs) == Err(v.error)
    ensures v.Ok? ==> Total(rs[..k + 1]) == Ok(total + v.value)
  {
    TotalStep(rs, k);
    if v.Err? {
      TotalOk(rs[..k]);
      PrefixOk(rs, k, k);
      TotalFirstError(rs, k);
    }
  }

  /** Totals of successes compare as their terms do. */
  lemma {:induction false} TotalMonotone(xs: seq<Result<int>>, ys: seq<Result<int>>)
    requires |xs| == |ys| && AllOk(xs, |xs|) && AllOk(ys, |ys|)
    requires forall k :: 0 <= k < |xs| ==> xs[k].value <= ys[k].value
    ensures Total(xs).Ok? && Total(ys).Ok? && Total(xs).value <= Total(ys).value
  {
    TotalOk(xs);
    TotalOk(ys);
    if |xs| > 0 {
      var n := |xs| - 1;
      assert forall k :: 0 <= k < n ==> xs[..n][k] == xs[k] && ys[..n][k] == ys[k];
      TotalMonotone(xs[..n], ys[..n]);
    }
  }

  /** The largest of zero and a list of outcomes, or the first exception among
      them. */
  function Best(rs: seq<Result<int>>): Result<int>
  {
    if |rs| == 0 then Ok(0)
    else
      var m := Best(rs[..|rs| - 1]);
      var last := rs[|rs| - 1];
      if m.Err? then Err(m.error)
      else if last.Err? then Err(last.error)
      else Ok(Max(m.value, last.value))
  }

  /** The maximum is a number exactly when every outcome is; it is then at
      least zero and every outcome, and is zero or one of the outcomes. */
  lemma {:induction false} BestBounds(rs: seq<Result<int>>)
    ensures Best(rs).Ok? <==> AllOk(rs, |rs|)
    ensures Best(rs).Ok? ==> Best(rs).value >= 0 && forall k :: 0 <= k < |rs| ==> rs[k].value <= Best(rs).value
    ensures Best(rs).Ok? ==> Best(rs).value == 0 || exists k :: 0 <= k < |rs| && rs[k] == Ok(Best(rs).value)
  {
    if |rs| > 0 {
      var n := |rs| - 1;
      var p := rs[..n];
      BestBounds(p);
      PrefixOk(rs, n, n);
      assert forall k :: 0 <= k < n ==> p[k] == rs[k];
      if Best(rs).Ok? && Best(rs).value != 0 && Best(rs).value != rs[n].value {
        var k :| 0 <= k < n && p[k] == Ok(Best(p).value);
        assert rs[k] == Ok(Best(rs).value);
      }
    }
  }

  /** The running maximum over a prefix, one outcome more. */
  lemma BestStep(rs: seq<Result<int>>, k: nat)
    requires k < |rs|
    ensures Best(rs[..k + 1]) ==
              if Best(rs[..k]).Err? then Best(rs[..k])
              else if rs[k].Err? then Err(rs[k].error)
              else Ok(Max(Best(rs[..k]).value, rs[k].value))
  {
    assert rs[..k + 1][..k] == rs[..k];
  }

  /** The first exception of the list is the exception of the maximum. */
  lemma {:induction false} BestFirstError(rs: seq<Result<int>>, k: nat)
    requires k < |rs| && rs[k].Err? && AllOk(rs, k)
    ensures Best(rs) == Err(rs[k].error)
  {
    var n := |rs| - 1;
    PrefixOk(rs, n, k);
    if k < n {
      assert rs[..n][k] == rs[k];
      BestFirstError(rs[..n], k);
    } else {
      BestBounds(rs[..n]);
    }
  }

  /** One more outcome of the running maximum: an exception is the maximum's
      exception, a success may raise it. */
  lemma BestPush(rs: seq<Result<int>>, k: nat, best: int, v: Result<int>)
    requires k < |rs| && Best(rs[..k]) == Ok(best) && rs[k] == v
    ensures v.Err? ==> Best(rs) == Err(v.error)
    ensures v.Ok? ==> Best(rs[..k + 1]) == Ok(Max(best, v.value))
  {
    BestStep(rs, k);
    if v.Err? {
      BestBounds(rs[..k]);
      PrefixOk(rs, k, k);
      BestFirstError(rs, k);
    }
  }

  /** The index of the first exception, at or before `j`. */
  function FirstErr(rs: seq<Result<int>>, j: nat): (k: nat)
    requires j < |rs| && rs[j].Err?
    ensures k <= j && rs[k].Err? && AllOk(rs, k)
  {
    if AllOk(rs, j) then j
    else
      var i :| 0 <= i < j && rs[i].Err?;
      FirstErr(rs, i)
  }

  // ---------------------------------------------------------------------
  // solve1, compute_max_payout, solve2

  /** The outcomes of dropping a token for each instruction, the k-th from
      1-based slot k + 1. */
  function SlotRolls(grid: seq<string>, instructions: seq<string>): seq<Result<int>>
  {
    seq(|instructions|, k requires 0 <= k < |instructions| => RollResult(k + 1, instructions[k], grid))
  }

  /** `solve1`: the total payout, instruction k dropped from slot k (1-based). */
  method Solve1(grid: seq<string>, instructions: seq<string>) returns (r: Result<int>)
    ensures r == Total(SlotRolls(grid, instructions))
  {
    ghost var rs := SlotRolls(grid, instructions);
    var total := 0;
    for k := 0 to |instructions|
      invariant Total(rs[..k]) == Ok(total)
    {
      var coins := Roll(k + 1, instructions[k], grid);
      TotalPush(rs, k, total, coins);
      if coins.Err? {
        return Err(coins.error);
      }
      total := total + coins.value;
    }
    assert rs[..|rs|] == rs;
    return Ok(total);
  }

  /** The number of slots `compute_max_payout` tries: one past half the
      width. */
  function TriedSlots(grid: seq<string>): nat
    requires |grid| > 0
  {
    |grid[0]| / 2 + 1
  }

  /** The outcomes of dropping a token with `instruction` from each tried
      slot, the k-th from slot k + 1. */
  function AllSlots(grid: seq<string>, instruction: string): seq<Result<int>>
    requires |grid| > 0
  {
    seq(TriedSlots(grid), k => RollResult(k + 1, instruction, grid))
  }

  /** What `compute_max_payout(grid, instruction)` returns or raises. */
  function MaxPayout(grid: seq<string>, instruction: string): Result<int>
  {
    if |grid| == 0 then Err(IndexError) else Best(AllSlots(grid, instruction))
  }

  /** The best payout is at least zero, at least the payout of every tried
      slot, and the payout of one of them when positive. */
  lemma MaxPayoutBest(grid: seq<string>, instruction: string)
    requires MaxPayout(grid, instruction).Ok?
    ensures var m := MaxPayout(grid, instruction).value;
            && m >= 0
            && (forall slot :: 1 <= slot <= TriedSlots(grid) ==>
                  RollResult(slot, instruction, grid).Ok? && RollResult(slot, instruction, grid).value <= m)
            && (m == 0 || exists slot :: 1 <= slot <= TriedSlots(grid) && RollResult(slot, instruction, grid) == Ok(m))
  {
    var rs := AllSlots(grid, instruction);
    var m := MaxPayout(grid, instruction).value;
    BestBounds(rs);
    forall slot | 1 <= slot <= TriedSlots(grid)
      ensures RollResult(slot, instruction, grid).Ok? && RollResult(slot, instruction, grid).value <= m
    {
      assert rs[slot - 1] == RollResult(slot, instruction, grid);
    }
    if m != 0 {
      var k :| 0 <= k < |rs| && rs[k] == Ok(m);
      assert RollResult(k + 1, instruction, grid) == Ok(m);
    }
  }

  /** On a grid of even width the last slot tried starts one column past the
      right edge, so `compute_max_payout` always raises. */
  lemma EvenWidthRaises(grid: seq<string>, instruction: string)
    requires |grid| > 0 && |grid[0]| % 2 == 0
    ensures MaxPayout(grid, instruction).Err?
  {
    var rs := AllSlots(grid, instruction);
    var n := TriedSlots(grid) - 1;
    assert StartCol(n + 1) == |grid[0]|;
    assert rs[n].Err?;
    if AllOk(rs, n) {
      BestFirstError(rs, n);
    } else {
      var j :| 0 <= j < n && rs[j].Err?;
      var k := FirstErr(rs, j);
      BestFirstError(rs, k);
    }
  }

  /** `compute_max_payout`: the best payout of `instruction` over the tried
      slots. */
  method ComputeMaxPayout(grid: seq<string>, instruction: string) returns (r: Result<int>)
    ensures r == MaxPayout(grid, instruction)
  {
    if |grid| == 0 {
      return Err(IndexError);
    }
    ghost var rs := AllSlots(grid, instruction);
    var maxPayout := 0;
    for slot := 1 to |grid[0]| / 2 + 2
      invariant Best(rs[..slot - 1]) == Ok(maxPayout)
    {
      var coins := Roll(slot, instruction, grid);
      BestPush(rs, slot - 1, maxPayout, coins);
      if coins.Err? {
        return Err(coins.error);
      }
      maxPayout := Max(maxPayout, coins.value);
    }
    assert rs[..|rs|] == rs;
    return Ok(maxPayout);
  }

  /** The best payout of each instruction. */
  function Bests(grid: seq<string>, instructions: seq<string>): seq<Result<int>>
  {
    seq(|instructions|, k requires 0 <= k < |instructions| => MaxPayout(grid, instructions[k]))
  }

  /** `solve2`: the sum of the best payout of every instruction. */
  method Solve2(grid: seq<string>, instructions: seq<string>) returns (r: Result<int>)
    ensures r == Total(Bests(grid, instructions))
  {
    ghost var rs := Bests(grid, instructions);
    var total := 0;
    for k := 0 to |instructions|
      invariant Total(rs[..k]) == Ok(total)
    {
      var best := ComputeMaxPayout(grid, instructions[k]);
      TotalPush(rs, k, total, best);
      if best.Err? {
        return Err(best.error);
      }
      total := total + best.value;
    }
    assert rs[..|rs|] == rs;
    return Ok(total);
  }

  /** When every instruction's own slot is among the tried slots, choosing the
      best slot per instruction pays at least as much as the fixed slots. */
  lemma BestBeatsFixed(grid: seq<string>, instructions: seq<string>)
    requires |grid| > 0 && |instructions| <= TriedSlots(grid)
    requires Total(Bests(grid, instructions)).Ok?
    ensures Total(SlotRolls(grid, instructions)).Ok?
    ensures Total(SlotRolls(grid, instructions)).value <= Total(Bests(grid, instructions)).value
  {
    var fixed, best := SlotRolls(grid, instructions), Bests(grid, instructions);
    TotalOk(best);
    forall k | 0 <= k < |instructions|
      ensures fixed[k].Ok? && fixed[k].value <= best[k].value
    {
      assert best[k].Ok?;
      MaxPayoutBest(grid, instructions[k]);
    }
    TotalMonotone(fixed, best);
  }
}
