/** The first puzzle's last part (`solve3`): the payout of every instruction
    from every slot, then the best and the worst total over the ways of giving
    each instruction its own slot, by dynamic programming over the sets of
    slots used. */
module NailAssign {
  import opened Results
  import opened Nails

  /** A set of slots (0-based), the source's bit mask. */
  type Mask = set<nat>

  // ---------------------------------------------------------------------
  // The payout matrix

  /** Mask `m` with slot `s` added: the source's `mask | 1 << s`. */
  function Add(m: Mask, s: nat): Mask
  {
    m + {s}
  }

  /** The number of slots of a grid: the even columns. */
  function NumSlots(grid: seq<string>): nat
    requires |grid| > 0
  {
    (|grid[0]| + 1) / 2
  }

  /** The payouts of `instruction` from slots 1 to `n`, or the exception of
      the first slot that raises. */
  function PayoutRow(grid: seq<string>, instruction: string, n: nat): (r: Result<seq<int>>)
    ensures r.Ok? ==> |r.value| == n
  {
    if n == 0 then Ok([])
    else
      var row := PayoutRow(grid, instruction, n - 1);
      var v := RollResult(n, instruction, grid);
      if row.Err? then Err(row.error)
      else if v.Err? then Err(v.error)
      else Ok(row.value + [v.value])
  }

  /** The payout rows of the first `m` instructions, or the exception of the
      first roll that raises, in row-major order. */
  function PayoutMatrix(grid: seq<string>, instructions: seq<string>, n: nat, m: nat): (r: Result<seq<seq<int>>>)
    requires m <= |instructions|
    ensures r.Ok? ==> |r.value| == m && forall i :: 0 <= i < m ==> |r.value[i]| == n
  {
    if m == 0 then Ok([])
    else
      var rows := PayoutMatrix(grid, instructions, n, m - 1);
      var row := PayoutRow(grid, instructions[m - 1], n);
      if rows.Err? then Err(rows.error)
      else if row.Err? then Err(row.error)
      else Ok(rows.value + [row.value])
  }

  /** A row holds the payout of every slot, or the exception of one of them. */
  lemma {:induction false} RowPayouts(grid: seq<string>, instruction: string, n: nat)
    ensures var r := PayoutRow(grid, instruction, n);
            r.Ok? ==> forall s :: 0 <= s < n ==> RollResult(s + 1, instruction, grid) == Ok(r.value[s])
    ensures var r := PayoutRow(grid, instruction, n);
            r.Err? ==> exists slot :: 1 <= slot <= n && RollResult(slot, instruction, grid) == Err(r.error)
  {
    if n > 0 {
      RowPayouts(grid, instruction, n - 1);
    }
  }

  /** The matrix holds the row of every instruction, or the exception of one
      of them. */
  lemma {:induction false} MatrixRows(grid: seq<string>, instructions: seq<string>, n: nat, m: nat)
    requires m <= |instructions|
    ensures var r := PayoutMatrix(grid, instructions, n, m);
            r.Ok? ==> forall i :: 0 <= i < m ==> PayoutRow(grid, instructions[i], n) == Ok(r.value[i])
    ensures var r := PayoutMatrix(grid, instructions, n, m);
            r.Err? ==> exists i :: 0 <= i < m && PayoutRow(grid, instructions[i], n) == Err(r.error)
  {
    if m > 0 {
      MatrixRows(grid, instructions, n, m - 1);
    }
  }

  /** Once a row raises, the remaining slots are not tried. */
  lemma {:induction false} RowErrStays(grid: seq<string>, instruction: string, k: nat, n: nat)
    requires k <= n && PayoutRow(grid, instruction, k).Err?
    ensures PayoutRow(grid, instruction, n) == PayoutRow(grid, instruction, k)
  {
    if k < n {
      RowErrStays(grid, instruction, k, n - 1);
    }
  }

  /** Once a row raises, the remaining instructions are not tried. */
  lemma {:induction false} MatrixErrStays(grid: seq<string>, instructions: seq<string>, n: nat, k: nat, m: nat)
    requires k <= m <= |instructions| && PayoutMatrix(grid, instructions, n, k).Err?
    ensures PayoutMatrix(grid, instructions, n, m) == PayoutMatrix(grid, instructions, n, k)
  {
    if k < m {
      MatrixErrStays(grid, instructions, n, k, m - 1);
    }
  }

  /** The matrix so far: rows before `i` hold their payouts, row `i` its first
      `slot` payouts. */
  ghost predicate FillState(grid: seq<string>, instructions: seq<string>, n: nat,
                            payouts: seq<seq<int>>, i: nat, slot: nat)
  {
    && |payouts| == |instructions| && i < |instructions| && slot <= n
    && (forall k :: 0 <= k < |payouts| ==> |payouts[k]| == n)
    && PayoutMatrix(grid, instructions, n, i) == Ok(payouts[..i])
    && PayoutRow(grid, instructions[i], slot) == Ok(payouts[i][..slot])
  }

  /** Storing the payout of slot `slot + 1` in row `i`. */
  lemma FillSlot(grid: seq<string>, instructions: seq<string>, n: nat,
                 payouts: seq<seq<int>>, i: nat, slot: nat, v: int)
    requires FillState(grid, instructions, n, payouts, i, slot) && slot < n
    requires RollResult(slot + 1, instructions[i], grid) == Ok(v)
    ensures FillState(grid, instructions, n, payouts[i := payouts[i][slot := v]], i, slot + 1)
  {
    var p := payouts[i := payouts[i][slot := v]];
    assert p[..i] == payouts[..i];
    assert p[i][..slot + 1] == payouts[i][..slot] + [v];
  }

  /** A finished row joins the matrix. */
  lemma FillRow(grid: seq<string>, instructions: seq<string>, n: nat, payouts: seq<seq<int>>, i: nat)
    requires FillState(grid, instructions, n, payouts, i, n)
    ensures PayoutMatrix(grid, instructions, n, i + 1) == Ok(payouts[..i + 1])
  {
    assert payouts[i][..n] == payouts[i];
    assert payouts[..i + 1] == payouts[..i] + [payouts[i]];
  }

  /** A roll that raises ends the matrix with its exception. */
  lemma FillFails(grid: seq<string>, instructions: seq<string>, n: nat,
                  payouts: seq<seq<int>>, i: nat, slot: nat)
    requires FillState(grid, instructions, n, payouts, i, slot) && slot < n
    requires RollResult(slot + 1, instructions[i], grid).Err?
    ensures PayoutMatrix(grid, instructions, n, |instructions|) == Err(RollResult(slot + 1, instructions[i], grid).error)
  {
    RowErrStays(grid, instructions[i], slot + 1, n);
    MatrixErrStays(grid, instructions, n, i + 1, |instructions|);
  }

  /** The payout of `instruction` row by row: `payouts[i][slot]` is the payout
      of instruction `i` from slot `slot + 1`. */
  method FillPayouts(grid: seq<string>, instructions: seq<string>, n: nat) returns (r: Result<seq<seq<int>>>)
    ensures r == PayoutMatrix(grid, instructions, n, |instructions|)
  {
    var payouts := seq(|instructions|, _ => seq(n, _ => 0));
    for i := 0 to |instructions|
      invariant |payouts| == |instructions| && forall k :: 0 <= k < |payouts| ==> |payouts[k]| == n
      invariant PayoutMatrix(grid, instructions, n, i) == Ok(payouts[..i])
    {
      for slot := 0 to n
        invariant FillState(grid, instructions, n, payouts, i, slot)
      {
        var v := Roll(slot + 1, instructions[i], grid);
        if v.Err? {
          FillFails(grid, instructions, n, payouts, i, slot);
          return Err(v.error);
        }
        FillSlot(grid, instructions, n, payouts, i, slot, v.value);
        payouts := payouts[i := payouts[i][slot := v.value]];
      }
      FillRow(grid, instructions, n, payouts, i);
    }
    assert payouts[..|instructions|] == payouts;
    return Ok(payouts);
  }

  // ---------------------------------------------------------------------
  // Assignments of instructions to slots

  /** Every row holds `n` payouts. */
  predicate IsMatrix(payouts: seq<seq<int>>, n: nat)
  {
    forall i :: 0 <= i < |payouts| ==> |payouts[i]| == n
  }

  /** `a` gives instruction `i` slot `a[i]`: each slot below `n`, no slot twice. */
  predicate Injective(a: seq<nat>, n: nat)
  {
    && (forall i :: 0 <= i < |a| ==> a[i] < n)
    && (forall i, j :: 0 <= i < j < |a| ==> a[i] != a[j])
  }

  /** The slots an assignment uses. */
  function Used(a: seq<nat>): set<nat>
  {
    set i | 0 <= i < |a| :: a[i]
  }

  /** The total payout of assignment `a` to the first `|a|` instructions. */
  function Score(payouts: seq<seq<int>>, n: nat, a: seq<nat>): int
    requires IsMatrix(payouts, n) && |a| <= |payouts| && forall i :: 0 <= i < |a| ==> a[i] < n
  {
    if |a| == 0 then 0
    else Score(payouts, n, a[..|a| - 1]) + payouts[|a| - 1][a[|a| - 1]]
  }

  /** `x` is at least as good as `y`: no smaller when maximizing, no larger
      when minimizing. */
  predicate Beats(x: int, y: int, maximize: bool)
  {
    if maximize then x >= y else x <= y
  }

  /** The source's test for replacing a stored total: strictly better. */
  predicate Better(cand: int, prev: int, maximize: bool)
  {
    if maximize then cand > prev else cand < prev
  }

  /** `t` distinct slots below `n`. */
  predicate Sized(m: Mask, t: nat, n: nat)
  {
    |m| == t && forall s :: s in m ==> s < n
  }

  /** `v` is the best (or worst, when not maximizing) total over the
      assignments of slot set `m` to the first `t` instructions. */
  ghost predicate IsOpt(payouts: seq<seq<int>>, n: nat, t: nat, m: Mask, v: int, maximize: bool)
    requires IsMatrix(payouts, n) && t <= |payouts|
  {
    && (exists a {:trigger Score(payouts, n, a)} :: |a| == t && Injective(a, n) && Used(a) == m && Score(payouts, n, a) == v)
    && (forall a {:trigger Score(payouts, n, a)} :: |a| == t && Injective(a, n) && Used(a) == m ==> Beats(v, Score(payouts, n, a), maximize))
  }

  /** `v` is the best (or worst) total over all assignments of distinct slots
      to the first `t` instructions. */
  ghost predicate IsOptimum(payouts: seq<seq<int>>, n: nat, t: nat, v: int, maximize: bool)
    requires IsMatrix(payouts, n) && t <= |payouts|
  {
    && (exists a {:trigger Score(payouts, n, a)} :: |a| == t && Injective(a, n) && Score(payouts, n, a) == v)
    && (forall a {:trigger Score(payouts, n, a)} :: |a| == t && Injective(a, n) ==> Beats(v, Score(payouts, n, a), maximize))
  }

  /** The worst total is at most the best. */
  lemma OptimaOrdered(payouts: seq<seq<int>>, n: nat, t: nat, lo: int, hi: int)
    requires IsMatrix(payouts, n) && t <= |payouts|
    requires IsOptimum(payouts, n, t, lo, false) && IsOptimum(payouts, n, t, hi, true)
    ensures lo <= hi
  {
    var a :| |a| == t && Injective(a, n) && Score(payouts, n, a) == hi;
    assert Beats(lo, Score(payouts, n, a), false);
  }

  /** The optimum is unique. */
  lemma OptimumUnique(payouts: seq<seq<int>>, n: nat, t: nat, v: int, w: int, maximize: bool)
    requires IsMatrix(payouts, n) && t <= |payouts|
    requires IsOptimum(payouts, n, t, v, maximize) && IsOptimum(payouts, n, t, w, maximize)
    ensures v == w
  {
    var a :| |a| == t && Injective(a, n) && Score(payouts, n, a) == v;
    var b :| |b| == t && Injective(b, n) && Score(payouts, n, b) == w;
    assert Beats(v, Score(payouts, n, b), maximize) && Beats(w, Score(payouts, n, a), maximize);
  }

  /** An injective assignment uses as many slots as it has instructions. */
  lemma {:induction false} UsedCard(a: seq<nat>, n: nat)
    requires Injective(a, n)
    ensures Sized(Used(a), |a|, n)
  {
    if |a| > 0 {
      var p := a[..|a| - 1];
      assert Injective(p, n);
      UsedCard(p, n);
      assert Used(a) == Used(p) + {a[|a| - 1]};
    }
  }

  /** Slots 0 to `t - 1`, in order. */
  function Range(t: nat): (a: seq<nat>)
    ensures |a| == t && forall i :: 0 <= i < t ==> a[i] == i
  {
    seq(t, i => i)
  }

  /** A set of slots below `n` has at most `n` of them. */
  lemma {:induction false} SizedBound(m: Mask, t: nat, n: nat)
    requires Sized(m, t, n)
    ensures t <= n
    decreases n
  {
    if n > 0 {
      var m' := m - {n - 1};
      if n - 1 in m {
        SizedBound(m', t - 1, n - 1);
      } else {
        assert m' == m;
        SizedBound(m, t, n - 1);
      }
    } else {
      assert m == {} by {
        forall s | s in m
          ensures false
        {
        }
      }
    }
  }

  // ---------------------------------------------------------------------
  // Python dictionaries keyed by masks

  /** A dict from masks to totals: its keys in insertion order, which is the
      order `items()` yields them, and the mapping. */
  datatype Dict = Dict(keys: seq<Mask>, vals: map<Mask, int>)

  /** The keys are the mapping's domain, each once. */
  ghost predicate DictValid(d: Dict)
  {
    && (forall i :: 0 <= i < |d.keys| ==> d.keys[i] in d.vals)
    && (forall m :: m in d.vals ==> m in d.keys)
    && (forall i, j :: 0 <= i < j < |d.keys| ==> d.keys[i] != d.keys[j])
  }

  /** A dict has as many keys as entries. */
  lemma DictSize(d: Dict)
    requires DictValid(d)
    ensures |d.keys| == 0 <==> |d.vals| == 0
  {
    if |d.keys| == 0 {
      assert d.vals.Keys == {};
    } else {
      assert d.keys[0] in d.vals;
    }
  }

  /** `d.get(k)`. */
  function Get(d: Dict, k: Mask): Option<int>
  {
    if k in d.vals then Some(d.vals[k]) else None
  }

  /** `d[k] = v`: a new key goes last, an old key keeps its place. */
  function Put(d: Dict, k: Mask, v: int): (r: Dict)
    requires DictValid(d)
    ensures DictValid(r) && r.vals == d.vals[k := v]
  {
    Dict(if k in d.vals then d.keys else d.keys + [k], d.vals[k := v])
  }

  // ---------------------------------------------------------------------
  // One row of the dynamic program

  /** Total `next[m']` is the offer of mask `m` of `dp` with slot `s`. */
  ghost predicate Offered(dp: map<Mask, int>, row: seq<int>, n: nat, next: map<Mask, int>, m': Mask, m: Mask, s: nat)
  {
    m in dp && s < n && s < |row| && s !in m && m' == Add(m, s) && m' in next && next[m'] == dp[m] + row[s]
  }

  /** `next` is the table one row further: every mask of `dp` with a slot `s`
      below `n` it lacks yields mask plus `s`, holding the best (or worst) of
      the mask's total plus the row's payout for `s`. */
  ghost predicate Relaxed(dp: map<Mask, int>, row: seq<int>, n: nat, maximize: bool, next: map<Mask, int>)
    requires |row| == n
  {
    && (forall m: Mask, s: nat {:trigger Add(m, s)} :: m in dp && s < n && s !in m ==>
          Add(m, s) in next && Beats(next[Add(m, s)], dp[m] + row[s], maximize))
    && (forall m' :: m' in next ==>
          exists m: Mask, s: nat :: Offered(dp, row, n, next, m', m, s))
  }

  /** Pair (`jj`, `s`), key `jj` of the table with slot `s`, comes before
      pair (`j`, `slot`) in the loop's order. */
  predicate Before(j: nat, slot: nat, jj: nat, s: nat)
  {
    jj < j || (jj == j && s < slot)
  }

  /** Pair (`jj`, `s`) is one the loops have tried before (`j`, `slot`) and
      that makes an offer: slot `s` is not in key `jj`. */
  ghost predicate Tried(dp: Dict, n: nat, j: nat, slot: nat, jj: nat, s: nat)
  {
    jj < |dp.keys| && s < n && s !in dp.keys[jj] && Before(j, slot, jj, s)
  }

  /** The offer of key `jj` with slot `s` is stored, or beaten by the stored
      total. */
  ghost predicate Covered(dp: Dict, row: seq<int>, n: nat, maximize: bool, ndp: Dict, jj: nat, s: nat)
    requires DictValid(dp) && |row| == n && jj < |dp.keys| && s < n
  {
    Add(dp.keys[jj], s) in ndp.vals && Beats(ndp.vals[Add(dp.keys[jj], s)], dp.vals[dp.keys[jj]] + row[s], maximize)
  }

  /** Every offer tried before (`j`, `slot`) is stored, or beaten by the
      stored total. */
  ghost predicate Covers(dp: Dict, row: seq<int>, n: nat, maximize: bool, ndp: Dict, j: nat, slot: nat)
    requires DictValid(dp) && |row| == n
  {
    forall jj: nat, s: nat {:trigger Tried(dp, n, j, slot, jj, s)} :: Tried(dp, n, j, slot, jj, s) ==>
      Covered(dp, row, n, maximize, ndp, jj, s)
  }

  /** Total `ndp.vals[m']` is the offer of tried pair (`jj`, `s`). */
  ghost predicate OfferedAt(dp: Dict, row: seq<int>, n: nat, ndp: Dict, j: nat, slot: nat, m': Mask, jj: nat, s: nat)
  {
    && Tried(dp, n, j, slot, jj, s) && s < |row| && dp.keys[jj] in dp.vals
    && m' == Add(dp.keys[jj], s) && m' in ndp.vals && ndp.vals[m'] == dp.vals[dp.keys[jj]] + row[s]
  }

  /** Every stored total is an offer tried before (`j`, `slot`). */
  ghost predicate Offers(dp: Dict, row: seq<int>, n: nat, ndp: Dict, j: nat, slot: nat)
  {
    forall m' :: m' in ndp.vals ==> IsOffer(dp, row, n, ndp, j, slot, m')
  }

  /** Total `ndp.vals[m']` is the offer of some pair tried before (`j`, `slot`). */
  ghost predicate IsOffer(dp: Dict, row: seq<int>, n: nat, ndp: Dict, j: nat, slot: nat, m': Mask)
  {
    exists jj: nat, s: nat :: OfferedAt(dp, row, n, ndp, j, slot, m', jj, s)
  }

  /** The state of the row's loops once the pairs before (`j`, `slot`) are
      tried. */
  ghost predicate RelaxState(dp: Dict, row: seq<int>, n: nat, maximize: bool, ndp: Dict, j: nat, slot: nat)
    requires DictValid(dp) && |row| == n
  {
    && DictValid(ndp) && j <= |dp.keys| && slot <= n
    && Covers(dp, row, n, maximize, ndp, j, slot)
    && Offers(dp, row, n, ndp, j, slot)
  }

  /** The offers before (`j`, `slot`) stay offers before any later pair. */
  lemma OffersKept(dp: Dict, row: seq<int>, n: nat, ndp: Dict, j: nat, slot: nat, j': nat, slot': nat)
    requires (j' == j && slot <= slot') || (j' == j + 1 && slot == n && slot' == 0)
    requires Offers(dp, row, n, ndp, j, slot)
    ensures Offers(dp, row, n, ndp, j', slot')
  {
    forall m' | m' in ndp.vals
      ensures IsOffer(dp, row, n, ndp, j', slot', m')
    {
      var jj: nat, s: nat :| OfferedAt(dp, row, n, ndp, j, slot, m', jj, s);
      assert OfferedAt(dp, row, n, ndp, j', slot', m', jj, s);
    }
  }

  /** Trying pair (`j`, `slot`) with no new offer, or with one the table
      already beats, keeps every earlier offer covered. */
  lemma CoversNext(dp: Dict, row: seq<int>, n: nat, maximize: bool, ndp: Dict, j: nat, slot: nat)
    requires DictValid(dp) && |row| == n && j < |dp.keys| && slot < n
    requires Covers(dp, row, n, maximize, ndp, j, slot)
    requires slot !in dp.keys[j] ==> Covered(dp, row, n, maximize, ndp, j, slot)
    ensures Covers(dp, row, n, maximize, ndp, j, slot + 1)
  {
    forall jj: nat, s: nat | Tried(dp, n, j, slot + 1, jj, s)
      ensures Covered(dp, row, n, maximize, ndp, jj, s)
    {
      if !(jj == j && s == slot) {
        assert Tried(dp, n, j, slot, jj, s);
      }
    }
  }

  /** A slot already in the mask is skipped. */
  lemma RelaxSkip(dp: Dict, row: seq<int>, n: nat, maximize: bool, ndp: Dict, j: nat, slot: nat)
    requires DictValid(dp) && |row| == n && j < |dp.keys| && slot < n
    requires RelaxState(dp, row, n, maximize, ndp, j, slot) && slot in dp.keys[j]
    ensures RelaxState(dp, row, n, maximize, ndp, j, slot + 1)
  {
    CoversNext(dp, row, n, maximize, ndp, j, slot);
    OffersKept(dp, row, n, ndp, j, slot, j, slot + 1);
  }

  /** A candidate no better than the stored total leaves the table as it is. */
  lemma RelaxKeep(dp: Dict, row: seq<int>, n: nat, maximize: bool, ndp: Dict, j: nat, slot: nat)
    requires DictValid(dp) && |row| == n && j < |dp.keys| && slot < n
    requires RelaxState(dp, row, n, maximize, ndp, j, slot) && slot !in dp.keys[j]
    requires Add(dp.keys[j], slot) in ndp.vals
    requires !Better(dp.vals[dp.keys[j]] + row[slot], ndp.vals[Add(dp.keys[j], slot)], maximize)
    ensures RelaxState(dp, row, n, maximize, ndp, j, slot + 1)
  {
    CoversNext(dp, row, n, maximize, ndp, j, slot);
    OffersKept(dp, row, n, ndp, j, slot, j, slot + 1);
  }

  /** Storing a better offer keeps every earlier offer covered. */
  lemma CoversPut(dp: Dict, row: seq<int>, n: nat, maximize: bool, ndp: Dict, j: nat, slot: nat, ndp': Dict)
    requires DictValid(dp) && DictValid(ndp) && |row| == n && j < |dp.keys| && slot < n
    requires Covers(dp, row, n, maximize, ndp, j, slot) && slot !in dp.keys[j]
    requires var nmask := Add(dp.keys[j], slot);
             nmask !in ndp.vals || Better(dp.vals[dp.keys[j]] + row[slot], ndp.vals[nmask], maximize)
    requires ndp' == Put(ndp, Add(dp.keys[j], slot), dp.vals[dp.keys[j]] + row[slot])
    ensures Covers(dp, row, n, maximize, ndp', j, slot + 1)
  {
    var nmask := Add(dp.keys[j], slot);
    forall jj: nat, s: nat | Tried(dp, n, j, slot + 1, jj, s)
      ensures Covered(dp, row, n, maximize, ndp', jj, s)
    {
      if Tried(dp, n, j, slot, jj, s) {
        assert Covered(dp, row, n, maximize, ndp, jj, s);
      }
    }
  }

  /** After storing an offer every stored total is still an offer. */
  lemma OffersPut(dp: Dict, row: seq<int>, n: nat, ndp: Dict, j: nat, slot: nat, ndp': Dict)
    requires DictValid(dp) && DictValid(ndp) && |row| == n && j < |dp.keys| && slot < n
    requires Offers(dp, row, n, ndp, j, slot) && slot !in dp.keys[j]
    requires ndp' == Put(ndp, Add(dp.keys[j], slot), dp.vals[dp.keys[j]] + row[slot])
    ensures Offers(dp, row, n, ndp', j, slot + 1)
  {
    forall m' | m' in ndp'.vals
      ensures IsOffer(dp, row, n, ndp', j, slot + 1, m')
    {
      if m' == Add(dp.keys[j], slot) {
        assert OfferedAt(dp, row, n, ndp', j, slot + 1, m', j, slot);
      } else {
        var jj: nat, s: nat :| OfferedAt(dp, row, n, ndp, j, slot, m', jj, s);
        assert OfferedAt(dp, row, n, ndp', j, slot + 1, m', jj, s);
      }
    }
  }

  /** A candidate for a new mask, or better than the stored total, is stored. */
  lemma RelaxPut(dp: Dict, row: seq<int>, n: nat, maximize: bool, ndp: Dict, j: nat, slot: nat, nmask: Mask, cand: int)
    requires DictValid(dp) && |row| == n && j < |dp.keys| && slot < n
    requires RelaxState(dp, row, n, maximize, ndp, j, slot) && slot !in dp.keys[j]
    requires nmask == Add(dp.keys[j], slot) && cand == dp.vals[dp.keys[j]] + row[slot]
    requires nmask !in ndp.vals || Better(cand, ndp.vals[nmask], maximize)
    ensures RelaxState(dp, row, n, maximize, Put(ndp, nmask, cand), j, slot + 1)
  {
    var ndp' := Put(ndp, nmask, cand);
    CoversPut(dp, row, n, maximize, ndp, j, slot, ndp');
    OffersPut(dp, row, n, ndp, j, slot, ndp');
  }

  /** The offers of key `j` with every slot are the offers before key `j + 1`. */
  lemma CoversAdvance(dp: Dict, row: seq<int>, n: nat, maximize: bool, ndp: Dict, j: nat)
    requires DictValid(dp) && |row| == n && j < |dp.keys|
    requires Covers(dp, row, n, maximize, ndp, j, n)
    ensures Covers(dp, row, n, maximize, ndp, j + 1, 0)
  {
    forall jj: nat, s: nat | Tried(dp, n, j + 1, 0, jj, s)
      ensures Covered(dp, row, n, maximize, ndp, jj, s)
    {
      assert Tried(dp, n, j, n, jj, s);
    }
  }

  /** Every slot of key `j` tried: on to the next key. */
  lemma RelaxNext(dp: Dict, row: seq<int>, n: nat, maximize: bool, ndp: Dict, j: nat)
    requires DictValid(dp) && |row| == n && j < |dp.keys|
    requires RelaxState(dp, row, n, maximize, ndp, j, n)
    ensures RelaxState(dp, row, n, maximize, ndp, j + 1, 0)
  {
    OffersKept(dp, row, n, ndp, j, n, j + 1, 0);
    CoversAdvance(dp, row, n, maximize, ndp, j);
  }

  /** Every pair tried: the new table is the relaxed one. */
  lemma RelaxDone(dp: Dict, row: seq<int>, n: nat, maximize: bool, ndp: Dict)
    requires DictValid(dp) && |row| == n
    requires RelaxState(dp, row, n, maximize, ndp, |dp.keys|, 0)
    ensures Relaxed(dp.vals, row, n, maximize, ndp.vals)
  {
    forall m: Mask, s: nat | m in dp.vals && s < n && s !in m
      ensures Add(m, s) in ndp.vals && Beats(ndp.vals[Add(m, s)], dp.vals[m] + row[s], maximize)
    {
      var jj :| 0 <= jj < |dp.keys| && dp.keys[jj] == m;
      assert Tried(dp, n, |dp.keys|, 0, jj, s);
      assert Add(dp.keys[jj], s) == Add(m, s);
    }
    forall m' | m' in ndp.vals
      ensures exists m: Mask, s: nat :: Offered(dp.vals, row, n, ndp.vals, m', m, s)
    {
      var jj: nat, s: nat :| OfferedAt(dp, row, n, ndp, |dp.keys|, 0, m', jj, s);
      assert Offered(dp.vals, row, n, ndp.vals, m', dp.keys[jj], s);
    }
  }

  /** One row of the dynamic program: from every mask of `dp` and every slot
      it lacks, offer the mask's total plus the row's payout for that slot to
      the mask with the slot added, keeping the best (or worst) offer. */
  method Relax(dp: Dict, row: seq<int>, n: nat, maximize: bool) returns (ndp: Dict)
    requires DictValid(dp) && |row| == n
    ensures DictValid(ndp) && Relaxed(dp.vals, row, n, maximize, ndp.vals)
  {
    ndp := Dict([], map[]);
    for j := 0 to |dp.keys|
      invariant RelaxState(dp, row, n, maximize, ndp, j, 0)
    {
      var mask := dp.keys[j];
      var val := dp.vals[mask];
      for s := 0 to n
        invariant RelaxState(dp, row, n, maximize, ndp, j, s)
      {
        ndp := Offer(dp, row, n, maximize, ndp, j, mask, val, s);
      }
      RelaxNext(dp, row, n, maximize, ndp, j);
    }
    RelaxDone(dp, row, n, maximize, ndp);
  }

  /** The inner loop's body: offer total `val` of key `j`, which is `mask`,
      plus the payout of slot `s` to the mask with `s` added. */
  method Offer(dp: Dict, row: seq<int>, n: nat, maximize: bool, ndp: Dict, j: nat, mask: Mask, val: int, s: nat)
      returns (ndp': Dict)
    requires DictValid(dp) && |row| == n && j < |dp.keys| && s < n
    requires mask == dp.keys[j] && val == dp.vals[mask]
    requires RelaxState(dp, row, n, maximize, ndp, j, s)
    ensures RelaxState(dp, row, n, maximize, ndp', j, s + 1)
  {
    ndp' := ndp;
    if s in mask {
      RelaxSkip(dp, row, n, maximize, ndp, j, s);
      return;
    }
    var nmask := Add(mask, s);
    var cand := val + row[s];
    var prev := Get(ndp, nmask);
    if prev.None? || Better(cand, prev.value, maximize) {
      RelaxPut(dp, row, n, maximize, ndp, j, s, nmask, cand);
      ndp' := Put(ndp, nmask, cand);
    } else {
      RelaxKeep(dp, row, n, maximize, ndp, j, s);
    }
  }

  // ---------------------------------------------------------------------
  // The table after each row

  /** After `t` rows the table has a key for every set of `t` slots below `n`,
      holding the best (or worst) total of the assignments of that set to the
      first `t` instructions. */
  ghost predicate Table(payouts: seq<seq<int>>, n: nat, t: nat, maximize: bool, dp: Dict)
    requires IsMatrix(payouts, n) && t <= |payouts|
  {
    DictValid(dp) && Keys(dp.vals, t, n) && Best(payouts, n, t, maximize, dp.vals)
  }

  /** The keys are the sets of `t` slots below `n`. */
  ghost predicate Keys(d: map<Mask, int>, t: nat, n: nat)
  {
    forall m :: m in d <==> Sized(m, t, n)
  }

  /** Each key holds the best (or worst) total of its assignments to the
      first `t` instructions. */
  ghost predicate Best(payouts: seq<seq<int>>, n: nat, t: nat, maximize: bool, d: map<Mask, int>)
    requires IsMatrix(payouts, n) && t <= |payouts|
  {
    forall m :: m in d ==> IsOpt(payouts, n, t, m, d[m], maximize)
  }

  /** The table before any row: the empty set, with total zero. */
  lemma TableStart(payouts: seq<seq<int>>, n: nat, maximize: bool)
    requires IsMatrix(payouts, n)
    ensures Table(payouts, n, 0, maximize, Dict([{}], map[{} := 0]))
  {
    var a: seq<nat> := [];
    assert Used(a) == {} && Score(payouts, n, a) == 0;
    forall m | Sized(m, 0, n)
      ensures m == {}
    {
    }
    forall b: seq<nat> | |b| == 0 && Injective(b, n) && Used(b) == {}
      ensures Beats(0, Score(payouts, n, b), maximize)
    {
      assert b == a;
    }
  }

  /** Adding a slot not yet in a set of `t` slots makes `t + 1`. */
  lemma SizedAdd(m: Mask, s: nat, t: nat, n: nat)
    requires Sized(m, t, n) && s < n && s !in m
    ensures Sized(Add(m, s), t + 1, n)
  {
  }

  /** Removing a slot from a set of `t + 1` slots leaves `t`. */
  lemma SizedRemove(m': Mask, s: nat, t: nat, n: nat)
    requires Sized(m', t + 1, n) && s in m'
    ensures Sized(m' - {s}, t, n) && s !in m' - {s} && Add(m' - {s}, s) == m'
  {
  }

  /** Every key of the relaxed table is a set of `t + 1` slots. */
  lemma KeysSound(n: nat, t: nat, dp: map<Mask, int>, row: seq<int>, maximize: bool, next: map<Mask, int>, m': Mask)
    requires |row| == n && Relaxed(dp, row, n, maximize, next) && Keys(dp, t, n) && m' in next
    ensures Sized(m', t + 1, n)
  {
    var m: Mask, s: nat :| Offered(dp, row, n, next, m', m, s);
    SizedAdd(m, s, t, n);
  }

  /** Every set of `t + 1` slots is a key of the relaxed table. */
  lemma KeysComplete(n: nat, t: nat, dp: map<Mask, int>, row: seq<int>, maximize: bool, next: map<Mask, int>, m': Mask)
    requires |row| == n && Relaxed(dp, row, n, maximize, next) && Keys(dp, t, n) && Sized(m', t + 1, n)
    ensures m' in next
  {
    assert m' != {};
    var s :| s in m';
    SizedRemove(m', s, t, n);
    assert Add(m' - {s}, s) in next;
  }

  /** The relaxed table's keys are the sets of `t + 1` slots below `n`. */
  lemma KeysStep(n: nat, t: nat, dp: map<Mask, int>, row: seq<int>, maximize: bool, next: map<Mask, int>)
    requires |row| == n && Relaxed(dp, row, n, maximize, next) && Keys(dp, t, n)
    ensures Keys(next, t + 1, n)
  {
    forall m': Mask
      ensures m' in next <==> Sized(m', t + 1, n)
    {
      if m' in next {
        KeysSound(n, t, dp, row, maximize, next, m');
      }
      if Sized(m', t + 1, n) {
        KeysComplete(n, t, dp, row, maximize, next, m');
      }
    }
  }

  /** Giving the next instruction slot `s` adds `s` to the slots used. */
  lemma UsedPush(a: seq<nat>, s: nat)
    ensures Used(a + [s]) == Add(Used(a), s)
  {
    var b := a + [s];
    forall x
      ensures x in Used(b) <==> x in Add(Used(a), s)
    {
      if x in Used(b) {
        var i :| 0 <= i < |b| && b[i] == x;
        if i < |a| {
          assert a[i] == x;
        }
      }
      if x in Used(a) {
        var i :| 0 <= i < |a| && a[i] == x;
        assert b[i] == x;
      }
      if x == s {
        assert b[|a|] == s;
      }
    }
  }

  /** An injective assignment is one of its prefix and a slot the prefix leaves
      free. */
  lemma InjectiveSplit(b: seq<nat>, n: nat)
    requires Injective(b, n) && |b| > 0
    ensures Injective(b[..|b| - 1], n) && b[|b| - 1] < n && b[|b| - 1] !in Used(b[..|b| - 1])
    ensures b == b[..|b| - 1] + [b[|b| - 1]]
  {
    var a := b[..|b| - 1];
    assert forall i :: 0 <= i < |a| ==> a[i] == b[i];
  }

  /** Extending an injective assignment by a free slot: the slots used grow by
      that slot and the total by its payout. */
  lemma Extend(payouts: seq<seq<int>>, n: nat, a: seq<nat>, s: nat)
    requires IsMatrix(payouts, n) && |a| < |payouts| && Injective(a, n) && s < n && s !in Used(a)
    ensures Injective(a + [s], n) && Used(a + [s]) == Add(Used(a), s)
    ensures Score(payouts, n, a + [s]) == Score(payouts, n, a) + payouts[|a|][s]
  {
    forall i | 0 <= i < |a|
      ensures a[i] != s
    {
      assert a[i] in Used(a);
    }
    UsedPush(a, s);
    assert (a + [s])[..|a|] == a;
  }

  /** An assignment that achieves the best (or worst) total of a mask. */
  lemma OptWitness(payouts: seq<seq<int>>, n: nat, t: nat, m: Mask, v: int, maximize: bool) returns (a: seq<nat>)
    requires IsMatrix(payouts, n) && t <= |payouts| && IsOpt(payouts, n, t, m, v, maximize)
    ensures |a| == t && Injective(a, n) && Used(a) == m && Score(payouts, n, a) == v
  {
    a :| |a| == t && Injective(a, n) && Used(a) == m && Score(payouts, n, a) == v;
  }

  /** The offer of slot `s` to a mask whose best total is `v` is achieved by
      an assignment of the mask with `s` added. */
  lemma OfferAchieved(payouts: seq<seq<int>>, n: nat, t: nat, maximize: bool, m: Mask, v: int, s: nat)
    requires IsMatrix(payouts, n) && t < |payouts| && IsOpt(payouts, n, t, m, v, maximize)
    requires s < n && s !in m
    ensures exists a {:trigger Score(payouts, n, a)} :: |a| == t + 1 && Injective(a, n) && Used(a) == Add(m, s) &&
              Score(payouts, n, a) == v + payouts[t][s]
  {
    var a := OptWitness(payouts, n, t, m, v, maximize);
    Extend(payouts, n, a, s);
    var b := a + [s];
    assert |b| == t + 1 && Injective(b, n) && Used(b) == Add(m, s) && Score(payouts, n, b) == v + payouts[t][s];
  }

  /** An assignment ending in slot `s` is no better than the offer of `s` to
      the slots of its prefix, when that offer is no better than `w`. */
  lemma OfferOptimal(payouts: seq<seq<int>>, n: nat, t: nat, maximize: bool, a: seq<nat>, s: nat, v: int, w: int)
    requires IsMatrix(payouts, n) && t < |payouts| && |a| == t && Injective(a, n) && s < n && s !in Used(a)
    requires IsOpt(payouts, n, t, Used(a), v, maximize) && Beats(w, v + payouts[t][s], maximize)
    ensures Beats(w, Score(payouts, n, a + [s]), maximize)
  {
    Extend(payouts, n, a, s);
    assert Beats(v, Score(payouts, n, a), maximize);
  }

  /** The total stored for a relaxed mask is that of an assignment. */
  lemma StepAchieved(payouts: seq<seq<int>>, n: nat, t: nat, maximize: bool, dp: map<Mask, int>, next: map<Mask, int>, m': Mask)
    requires IsMatrix(payouts, n) && t < |payouts| && Best(payouts, n, t, maximize, dp)
    requires Relaxed(dp, payouts[t], n, maximize, next) && m' in next
    ensures exists a {:trigger Score(payouts, n, a)} :: |a| == t + 1 && Injective(a, n) && Used(a) == m' && Score(payouts, n, a) == next[m']
  {
    var m: Mask, s: nat :| Offered(dp, payouts[t], n, next, m', m, s);
    OfferAchieved(payouts, n, t, maximize, m, dp[m], s);
  }

  /** No assignment of a relaxed mask beats its stored total. */
  lemma StepOptimal(payouts: seq<seq<int>>, n: nat, t: nat, maximize: bool, dp: map<Mask, int>, next: map<Mask, int>, b: seq<nat>)
    requires IsMatrix(payouts, n) && t < |payouts| && Keys(dp, t, n) && Best(payouts, n, t, maximize, dp)
    requires Relaxed(dp, payouts[t], n, maximize, next)
    requires |b| == t + 1 && Injective(b, n)
    ensures Used(b) in next && Beats(next[Used(b)], Score(payouts, n, b), maximize)
  {
    var a, s := b[..t], b[t];
    InjectiveSplit(b, n);
    UsedCard(a, n);
    UsedPush(a, s);
    var m := Used(a);
    OfferOptimal(payouts, n, t, maximize, a, s, dp[m], next[Add(m, s)]);
  }

  /** A relaxed mask holds the best (or worst) total of its assignments. */
  lemma StepAt(payouts: seq<seq<int>>, n: nat, t: nat, maximize: bool, dp: map<Mask, int>, next: map<Mask, int>, m': Mask)
    requires IsMatrix(payouts, n) && t < |payouts| && Keys(dp, t, n) && Best(payouts, n, t, maximize, dp)
    requires Relaxed(dp, payouts[t], n, maximize, next) && m' in next
    ensures IsOpt(payouts, n, t + 1, m', next[m'], maximize)
  {
    StepAchieved(payouts, n, t, maximize, dp, next, m');
    forall b | |b| == t + 1 && Injective(b, n) && Used(b) == m'
      ensures Beats(next[m'], Score(payouts, n, b), maximize)
    {
      StepOptimal(payouts, n, t, maximize, dp, next, b);
    }
  }

  /** Relaxing the table by row `t` gives the table after `t + 1` rows. */
  lemma TableStep(payouts: seq<seq<int>>, n: nat, t: nat, maximize: bool, dp: Dict, ndp: Dict)
    requires IsMatrix(payouts, n) && t < |payouts| && Table(payouts, n, t, maximize, dp)
    requires DictValid(ndp) && Relaxed(dp.vals, payouts[t], n, maximize, ndp.vals)
    ensures Table(payouts, n, t + 1, maximize, ndp)
  {
    KeysStep(n, t, dp.vals, payouts[t], maximize, ndp.vals);
    forall m' | m' in ndp.vals
      ensures IsOpt(payouts, n, t + 1, m', ndp.vals[m'], maximize)
    {
      StepAt(payouts, n, t, maximize, dp.vals, ndp.vals, m');
    }
  }

  /** The dynamic program over every row of the matrix. */
  method Optimize(payouts: seq<seq<int>>, n: nat, maximize: bool) returns (dp: Dict)
    requires IsMatrix(payouts, n)
    ensures Table(payouts, n, |payouts|, maximize, dp)
  {
    dp := Dict([{}], map[{} := 0]);
    TableStart(payouts, n, maximize);
    for t := 0 to |payouts|
      invariant Table(payouts, n, t, maximize, dp)
    {
      var ndp := Relax(dp, payouts[t], n, maximize);
      TableStep(payouts, n, t, maximize, dp, ndp);
      dp := ndp;
    }
  }

  // ---------------------------------------------------------------------
  // The answer

  /** `max(d.values())` (or `min`): the best stored total, raising
      `ValueError` on an empty dict. */
  method Extreme(d: Dict, maximize: bool) returns (r: Result<int>)
    requires DictValid(d)
    ensures r.Err? <==> |d.vals| == 0
    ensures r.Err? ==> r.error == ValueError
    ensures r.Ok? ==> (exists m :: m in d.vals && d.vals[m] == r.value) &&
                      forall m :: m in d.vals ==> Beats(r.value, d.vals[m], maximize)
  {
    DictSize(d);
    if |d.keys| == 0 {
      return Err(ValueError);
    }
    var best := d.vals[d.keys[0]];
    for j := 1 to |d.keys|
      invariant exists i :: 0 <= i < j && d.vals[d.keys[i]] == best
      invariant forall i :: 0 <= i < j ==> Beats(best, d.vals[d.keys[i]], maximize)
    {
      var v := d.vals[d.keys[j]];
      if Better(v, best, maximize) {
        best := v;
      }
    }
    forall m | m in d.vals
      ensures Beats(best, d.vals[m], maximize)
    {
      var i :| 0 <= i < |d.keys| && d.keys[i] == m;
    }
    assert d.keys[0] in d.vals;
    return Ok(best);
  }

  /** The best (or worst) stored total of the finished table is the optimum
      over all assignments. */
  lemma TableOptimum(payouts: seq<seq<int>>, n: nat, maximize: bool, dp: Dict, v: int)
    requires IsMatrix(payouts, n) && Table(payouts, n, |payouts|, maximize, dp)
    requires exists m :: m in dp.vals && dp.vals[m] == v
    requires forall m :: m in dp.vals ==> Beats(v, dp.vals[m], maximize)
    ensures IsOptimum(payouts, n, |payouts|, v, maximize)
  {
    var m :| m in dp.vals && dp.vals[m] == v;
    assert IsOpt(payouts, n, |payouts|, m, v, maximize);
    forall a | |a| == |payouts| && Injective(a, n)
      ensures Beats(v, Score(payouts, n, a), maximize)
    {
      UsedCard(a, n);
      assert IsOpt(payouts, n, |payouts|, Used(a), dp.vals[Used(a)], maximize);
    }
  }

  /** The finished table is empty exactly when there are more instructions
      than slots. */
  lemma TableEmpty(payouts: seq<seq<int>>, n: nat, maximize: bool, dp: Dict)
    requires IsMatrix(payouts, n) && Table(payouts, n, |payouts|, maximize, dp)
    ensures |dp.vals| == 0 <==> |payouts| > n
  {
    if |payouts| <= n {
      var a := Range(|payouts|);
      UsedCard(a, n);
      assert Used(a) in dp.vals;
    } else if |dp.vals| != 0 {
      var m :| m in dp.vals;
      SizedBound(m, |payouts|, n);
    }
  }

  /** `solve3`: the worst and the best total payout over the ways of giving
      each instruction its own slot. */
  method Solve3(grid: seq<string>, instructions: seq<string>) returns (r: Result<(int, int)>)
    ensures |grid| == 0 ==> r == Err(IndexError)
    ensures |grid| > 0 ==>
              var n := NumSlots(grid);
              var p := PayoutMatrix(grid, instructions, n, |instructions|);
              && (p.Err? ==> r == Err(p.error))
              && (p.Ok? && |instructions| > n ==> r == Err(ValueError))
              && (p.Ok? && |instructions| <= n ==>
                    r.Ok? && IsOptimum(p.value, n, |instructions|, r.value.0, false)
                          && IsOptimum(p.value, n, |instructions|, r.value.1, true))
  {
    if |grid| == 0 {
      return Err(IndexError);
    }
    var numSlots := (|grid[0]| + 1) / 2;
    var p := FillPayouts(grid, instructions, numSlots);
    if p.Err? {
      return Err(p.error);
    }
    var payouts := p.value;
    var dp := Optimize(payouts, numSlots, true);
    var maxPayout := Extreme(dp, true);
    TableEmpty(payouts, numSlots, true, dp);
    if maxPayout.Err? {
      return Err(maxPayout.error);
    }
    TableOptimum(payouts, numSlots, true, dp, maxPayout.value);
    dp := Optimize(payouts, numSlots, false);
    var minPayout := Extreme(dp, false);
    TableEmpty(payouts, numSlots, false, dp);
    TableOptimum(payouts, numSlots, false, dp, minPayout.value);
    return Ok((minPayout.value, maxPayout.value));
  }
}
