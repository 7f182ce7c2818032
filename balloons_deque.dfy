/** Part three of the balloon puzzle: the circle of part two kept as two
    queues, the near half `left` and the far half `right`, so that the
    balloon opposite the front is always the front of `right`. */
module BalloonDeque {
  import opened Balloons

  /** `ENC`: the colour codes, red 0, green 1, blue 2. */
  function Enc(b: Balloon): int
  {
    if b == 'R' then 0 else if b == 'G' then 1 else 2
  }

  /** Arrow `k` carries code `k mod 3`, and the codes tell colours apart. */
  lemma EncArrow(k: nat, b: Balloon)
    ensures Enc(Arrow(k)) == k % 3
    ensures Enc(b) == k % 3 <==> b == Arrow(k)
  {
  }

  /** The codes of a row of balloons. */
  function EncAll(bs: seq<Balloon>): seq<int>
  {
    seq(|bs|, i requires 0 <= i < |bs| => Enc(bs[i]))
  }

  /** Balanced halves: `left` holds the extra balloon of an odd count. */
  predicate Balanced(left: seq<int>, right: seq<int>)
  {
    |right| <= |left| <= |right| + 1
  }

  /** While the halves are balanced, `right` is empty once `left` is, and
      with an even count the front of `right` is the balloon at index
      `count / 2` of the circle, opposite the front. */
  lemma BalancedHalves(left: seq<int>, right: seq<int>)
    requires Balanced(left, right)
    ensures |left| == 0 ==> |right| == 0
    ensures |left| > 0 && (|left| + |right|) % 2 == 0 ==>
      |right| > 0 && (left + right)[(|left| + |right|) / 2] == right[0]
  {
  }

  /** One shot on the two halves: the front of `left` is burst, and with an
      even count and a matching colour so is the front of `right`; what is
      left is the row part two keeps. */
  lemma ShotHalves(cur: seq<Balloon>, left: seq<int>, right: seq<int>, k: nat, hit: bool)
    requires left + right == EncAll(cur) && Balanced(left, right) && |left| > 0
    requires hit == ((|left| + |right|) % 2 == 0 && left[0] == k % 3)
    ensures hit ==> |right| > 0 && left[1..] + right[1..] == EncAll(Shot(cur, Arrow(k)))
    ensures !hit ==> left[1..] + right == EncAll(Shot(cur, Arrow(k)))
  {
    EncArrow(k, cur[0]);
    assert left[0] == EncAll(cur)[0];
    if (|left| + |right|) % 2 == 0 && left[0] == k % 3 {
      var m := |cur| / 2;
      assert |left| == m;
      assert EncAll(cur)[1..m] == EncAll(cur[1..m]);
      assert EncAll(cur)[m + 1..] == EncAll(cur[m + 1..]);
      assert left[1..] == EncAll(cur)[1..m];
      assert right[1..] == EncAll(cur)[m + 1..];
      assert EncAll(cur[1..m] + cur[m + 1..]) == EncAll(cur[1..m]) + EncAll(cur[m + 1..]);
    } else {
      assert EncAll(cur)[1..] == EncAll(cur[1..]);
      assert left[1..] + right == EncAll(cur)[1..];
    }
  }

  /** The coded repetition grows one element at a time, element `i` being
      the code of balloon `i mod |balloons|`. */
  lemma DealStep(balloons: seq<Balloon>, reps: int, i: nat)
    requires i < |Repeat(balloons, reps)|
    ensures |balloons| > 0
    ensures EncAll(Repeat(balloons, reps))[..i + 1] ==
      EncAll(Repeat(balloons, reps))[..i] + [EncAll(balloons)[i % |balloons|]]
  {
    RepeatIndex(balloons, reps, i);
  }

  /** The first stage of `solve3`: the repeated row, coded, dealt into two
      halves, the first `(total + 1) / 2` balloons into `left`. */
  method Deal(balloons: seq<Balloon>, reps: int) returns (left: seq<int>, right: seq<int>)
    ensures left + right == EncAll(Repeat(balloons, reps))
    ensures |left| == (|left| + |right| + 1) / 2 && Balanced(left, right)
  {
    var base := EncAll(balloons);
    var n := |base|;
    var total := n * reps;
    left, right := [], [];
    var leftLen := (total + 1) / 2;
    ghost var row := Repeat(balloons, reps);
    assert |row| == if total > 0 then total else 0 by {
      if reps <= 0 {
        assert n * reps <= 0;
      }
    }
    var i := 0;
    while i < total
      invariant 0 <= i <= |row|
      invariant left + right == EncAll(row)[..i]
      invariant i <= leftLen ==> |left| == i && right == []
      invariant leftLen <= i ==> |left| == if leftLen < 0 then 0 else leftLen
    {
      DealStep(balloons, reps, i);
      var x := base[i % n];
      if i < leftLen {
        left := left + [x];
      } else {
        right := right + [x];
      }
      i := i + 1;
    }
    assert EncAll(row)[..i] == EncAll(row);
  }

  /** One pass of the shooting loop of `solve3`, arrow number `shots`: the
      halves afterwards hold the row part two keeps after that shot, and
      are balanced again. */
  method Fire(left: seq<int>, right: seq<int>, shots: nat, ghost cur: seq<Balloon>)
    returns (left': seq<int>, right': seq<int>)
    requires left + right == EncAll(cur) && Balanced(left, right) && |left| > 0
    ensures left' + right' == EncAll(Shot(cur, Arrow(shots)))
    ensures Balanced(left', right')
  {
    left', right' := left, right;
    var arrow := shots % 3;
    var totalBefore := |left'| + |right'|;
    var first := left'[0];
    ShotHalves(cur, left', right', shots, totalBefore % 2 == 0 && first == arrow);
    left' := left'[1..];
    if totalBefore % 2 == 0 && first == arrow {
      right' := right'[1..];
    }
    if |left'| < |right'| {
      assert (left' + [right'[0]]) + right'[1..] == left' + right';
      left' := left' + [right'[0]];
      right' := right'[1..];
    } else if |left'| > |right'| + 1 {
      // Moving the back of `left` to the front of `right` is never needed:
      // the halves are still balanced here.
      assert false;
    }
  }

  /** `solve3`: the same count as `solve2`, the row kept as two halves.
      `ENC` raises `KeyError` on a letter other than R, G or B; the row here
      is typed as balloons, so that case does not arise. */
  method Solve3(balloons: seq<Balloon>, reps: int) returns (r: nat)
    ensures r == Shots2(Repeat(balloons, reps), 0)
  {
    var left, right := Deal(balloons, reps);
    ghost var row := Repeat(balloons, reps);
    var shots := 0;
    ghost var cur := row;
    while true
      invariant left + right == EncAll(cur)
      invariant Balanced(left, right)
      invariant shots + Shots2(cur, shots) == Shots2(row, 0)
      decreases |cur|
    {
      BalancedHalves(left, right);
      if |left| == 0 {
        return shots;
      }
      left, right := Fire(left, right, shots, cur);
      cur := Shot(cur, Arrow(shots));
      shots := shots + 1;
    }
  }
}
