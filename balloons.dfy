/** The balloon puzzle: a row of red, green and blue balloons is shot at by
    arrows whose colours cycle red, green, blue. */
module Balloons {
  import opened Results

  /** A balloon, by its colour letter. */
  predicate IsBalloon(c: char)
  {
    c == 'R' || c == 'G' || c == 'B'
  }

  type Balloon = c: char | IsBalloon(c) witness 'R'

  /** The colour of arrow `k` (counting from 0): red, green, blue, red, ... */
  function Arrow(k: nat): Balloon
  {
    var c := "RGB"[k % 3];
    assert IsBalloon(c);
    c
  }

  // ---------------------------------------------------------------------
  // Parsing

  /** The characters Python's `str.isspace` accepts. */
  predicate IsSpace(c: char)
  {
    ('\t' <= c <= '\r') || ('\U{1C}' <= c <= ' ') || c == '\U{85}' || c == '\U{A0}' ||
    c == '\U{1680}' || ('\U{2000}' <= c <= '\U{200A}') || c == '\U{2028}' || c == '\U{2029}' ||
    c == '\U{202F}' || c == '\U{205F}' || c == '\U{3000}'
  }

  /** `s.lstrip()`. */
  function LStrip(s: string): string
  {
    if |s| > 0 && IsSpace(s[0]) then LStrip(s[1..]) else s
  }

  /** `s.rstrip()`. */
  function RStrip(s: string): string
  {
    if |s| > 0 && IsSpace(s[|s| - 1]) then RStrip(s[..|s| - 1]) else s
  }

  /** `s.strip()`. */
  function Strip(s: string): string
  {
    RStrip(LStrip(s))
  }

  /** Every character is white space. */
  predicate AllSpace(s: string)
  {
    forall k :: 0 <= k < |s| ==> IsSpace(s[k])
  }

  /** `lstrip` removes the leading white space and nothing else. */
  lemma {:induction false} LStripShape(s: string)
    ensures |LStrip(s)| <= |s| && LStrip(s) == s[|s| - |LStrip(s)|..]
    ensures AllSpace(s[..|s| - |LStrip(s)|])
    ensures |LStrip(s)| > 0 ==> !IsSpace(LStrip(s)[0])
  {
    if |s| > 0 && IsSpace(s[0]) {
      LStripShape(s[1..]);
      var k := |s| - |LStrip(s)|;
      assert s[1..][..k - 1] == s[1..k];
      assert s[1..][k - 1..] == s[k..];
    }
  }

  /** `rstrip` removes the trailing white space and nothing else. */
  lemma {:induction false} RStripShape(s: string)
    ensures |RStrip(s)| <= |s| && RStrip(s) == s[..|RStrip(s)|]
    ensures AllSpace(s[|RStrip(s)|..])
    ensures |RStrip(s)| > 0 ==> !IsSpace(RStrip(s)[|RStrip(s)| - 1])
  {
    if |s| > 0 && IsSpace(s[|s| - 1]) {
      var p := s[..|s| - 1];
      RStripShape(p);
      var k := |RStrip(s)|;
      assert p[..k] == s[..k];
      assert s[k..] == p[k..] + [s[|s| - 1]];
    }
  }

  /** `rstrip` of text that starts with a non-space keeps that start. */
  lemma {:induction false} RStripKeepsStart(s: string)
    requires |s| > 0 && !IsSpace(s[0])
    ensures |RStrip(s)| > 0 && RStrip(s)[0] == s[0]
  {
    if IsSpace(s[|s| - 1]) {
      RStripKeepsStart(s[..|s| - 1]);
    }
  }

  /** `strip` keeps a slice of its input: only white space is cut from either
      end, and what is kept neither starts nor ends with white space. */
  lemma StripShape(s: string)
    ensures exists i, j :: 0 <= i <= j <= |s| && Strip(s) == s[i..j] && AllSpace(s[..i]) && AllSpace(s[j..])
    ensures |Strip(s)| > 0 ==> !IsSpace(Strip(s)[0]) && !IsSpace(Strip(s)[|Strip(s)| - 1])
  {
    LStripShape(s);
    var l := LStrip(s);
    RStripShape(l);
    var i := |s| - |l|;
    var j := i + |RStrip(l)|;
    assert s[i..j] == l[..|RStrip(l)|];
    assert s[j..] == l[|RStrip(l)|..];
    assert Strip(s) == s[i..j] && AllSpace(s[..i]) && AllSpace(s[j..]);
    if |l| > 0 {
      RStripKeepsStart(l);
    }
  }

  /** Stripping twice is stripping once. */
  lemma StripIdempotent(s: string)
    ensures Strip(Strip(s)) == Strip(s)
  {
    StripShape(s);
    var t := Strip(s);
    if |t| > 0 {
      assert LStrip(t) == t;
      assert RStrip(t) == t;
    }
  }

  /** `parse_input`: the stripped input as balloons, or `ValueError` at the
      first character that is not `R`, `G` or `B`. */
  method ParseInput(inputs: string) returns (r: Result<seq<Balloon>>)
    ensures r.Ok? <==> forall k :: 0 <= k < |Strip(inputs)| ==> IsBalloon(Strip(inputs)[k])
    ensures r.Ok? ==> r.value == Strip(inputs)
    ensures r.Err? ==> r.error == ValueError
  {
    var text := Strip(inputs);
    var out: seq<Balloon> := [];
    for k := 0 to |text|
      invariant out == text[..k]
    {
      var ch := text[k];
      if IsBalloon(ch) {
        out := out + [ch];
      } else {
        return Err(ValueError);
      }
    }
    assert text[..|text|] == text;
    return Ok(out);
  }

  // ---------------------------------------------------------------------
  // Part one: an arrow bursts the front balloon and keeps going while the
  // balloon it burst had the arrow's colour.

  /** The balloons left after an arrow of colour `a`. */
  function Burst(bs: seq<Balloon>, a: Balloon): (r: seq<Balloon>)
    ensures |bs| > 0 ==> |r| < |bs|
  {
    if |bs| == 0 then []
    else if bs[0] == a then Burst(bs[1..], a)
    else bs[1..]
  }

  /** The arrows needed to burst every balloon, starting with arrow `k`. */
  function Shots1(bs: seq<Balloon>, k: nat): nat
    decreases |bs|
  {
    if |bs| == 0 then 0 else 1 + Shots1(Burst(bs, Arrow(k)), k + 1)
  }

  /** An arrow bursts the run of front balloons of its colour and the first
      balloon after that run. */
  lemma {:induction false} BurstRun(bs: seq<Balloon>, a: Balloon, p: nat)
    requires p <= |bs| && forall k :: 0 <= k < p ==> bs[k] == a
    requires p == |bs| || bs[p] != a
    ensures Burst(bs, a) == if p == |bs| then [] else bs[p + 1..]
  {
    if p > 0 {
      BurstRun(bs[1..], a, p - 1);
    }
  }

  /** No arrows for no balloons; otherwise at least one and at most one per
      balloon. */
  lemma {:induction false} Shots1Bounds(bs: seq<Balloon>, k: nat)
    ensures Shots1(bs, k) == 0 <==> |bs| == 0
    ensures Shots1(bs, k) <= |bs|
    decreases |bs|
  {
    if |bs| > 0 {
      Shots1Bounds(Burst(bs, Arrow(k)), k + 1);
    }
  }

  /** Reverse order, as `balloons[::-1]`. */
  function Reverse(s: seq<Balloon>): (r: seq<Balloon>)
    ensures |r| == |s|
  {
    if |s| == 0 then [] else Reverse(s[1..]) + [s[0]]
  }

  /** `solve1`: the balloons are kept reversed so that the front one is
      popped from the end. */
  method Solve1(balloons: seq<Balloon>) returns (r: nat)
    ensures r == Shots1(balloons, 0)
  {
    var stack := Reverse(balloons);
    ReverseInvolution(balloons);
    var i := 1;
    while true
      invariant i >= 1 && (i - 1) + Shots1(Reverse(stack), i - 1) == Shots1(balloons, 0)
      decreases |stack|
    {
      if |stack| == 0 {
        return i - 1;
      }
      var arrow := Arrow(i - 1);
      ghost var front := Reverse(stack);
      PopFront(stack);
      var b := stack[|stack| - 1];
      stack := stack[..|stack| - 1];
      while b == arrow
        invariant Burst(front, arrow) == if b == arrow then Burst(Reverse(stack), arrow) else Reverse(stack)
        invariant |stack| < |front|
        decreases |stack|
      {
        if |stack| == 0 {
          return i;
        }
        PopFront(stack);
        b := stack[|stack| - 1];
        stack := stack[..|stack| - 1];
      }
      i := i + 1;
    }
  }

  /** Element `k` of the reversal is element `|s| - 1 - k` of `s`. */
  lemma {:induction false} ReverseIndex(s: seq<Balloon>)
    ensures forall k :: 0 <= k < |s| ==> Reverse(s)[k] == s[|s| - 1 - k]
  {
    if |s| > 0 {
      ReverseIndex(s[1..]);
    }
  }

  /** Popping the end of a reversed sequence pops its front. */
  lemma {:induction false} PopFront(stack: seq<Balloon>)
    requires |stack| > 0
    ensures Reverse(stack) == [stack[|stack| - 1]] + Reverse(stack[..|stack| - 1])
  {
    if |stack| > 1 {
      var init := stack[..|stack| - 1];
      PopFront(stack[1..]);
      assert stack[1..][..|stack| - 2] == init[1..];
    }
  }

  /** Reversing twice gives back the sequence. */
  lemma {:induction false} ReverseInvolution(s: seq<Balloon>)
    ensures Reverse(Reverse(s)) == s
  {
    if |s| > 0 {
      var t := Reverse(s);
      PopFront(t);
      assert t[..|t| - 1] == Reverse(s[1..]);
      ReverseInvolution(s[1..]);
    }
  }

  // ---------------------------------------------------------------------
  // Part two: the row is repeated; an arrow bursts the front balloon and,
  // when the count is even and the front has the arrow's colour, also the
  // balloon opposite it in the circle.

  /** `bs * reps`: `reps` copies of `bs` (none when `reps` is not positive). */
  function Repeat<T>(bs: seq<T>, reps: int): (r: seq<T>)
    ensures |r| == if reps <= 0 then 0 else |bs| * reps
  {
    if reps <= 0 then []
    else
      assert |bs| * (reps - 1) + |bs| == |bs| * reps;
      Repeat(bs, reps - 1) + bs
  }

  /** Element `i` of the repetition is element `i mod |bs|` of one copy. */
  lemma {:induction false} RepeatIndex<T>(bs: seq<T>, reps: int, i: nat)
    requires i < |Repeat(bs, reps)|
    ensures |bs| > 0 && Repeat(bs, reps)[i] == bs[i % |bs|]
  {
    var p := Repeat(bs, reps - 1);
    assert Repeat(bs, reps) == p + bs;
    if i < |p| {
      RepeatIndex(bs, reps - 1, i);
    } else {
      ModShift(i - |p|, |bs|, reps - 1);
    }
  }

  /** `t * n >= n` for a positive `t`. */
  lemma {:induction false} MulAtLeast(t: int, n: int)
    requires t >= 1 && n > 0
    ensures t * n >= n
  {
    if t > 1 {
      MulAtLeast(t - 1, n);
      assert t * n == (t - 1) * n + n;
    }
  }

  /** The remainder is the unique `b` in `[0, n)` with `y == a * n + b`. */
  lemma ModUnique(y: int, n: int, a: int, b: int)
    requires n > 0 && 0 <= b < n && y == a * n + b
    ensures y % n == b
  {
    var c, d := y / n, y % n;
    assert y == c * n + d;
    if a > c {
      assert (a - c) * n == a * n - c * n;
      MulAtLeast(a - c, n);
    } else if c > a {
      assert (c - a) * n == c * n - a * n;
      MulAtLeast(c - a, n);
    }
  }

  /** Shifting by whole copies leaves the index within a copy. */
  lemma ModShift(k: int, n: int, m: nat)
    requires 0 <= k < n
    ensures (k + n * m) % n == k
  {
    ModUnique(k + n * m, n, m, k);
  }

  /** The row after one shot with an arrow of colour `a`; index `|bs| / 2`
      is the balloon opposite the front. */
  function Shot(bs: seq<Balloon>, a: Balloon): (r: seq<Balloon>)
    requires |bs| > 0
  {
    var n := |bs|;
    if n % 2 == 0 && a == bs[0] then bs[1..n / 2] + bs[n / 2 + 1..] else bs[1..]
  }

  /** The arrows needed to burst every balloon, starting with arrow `k`. */
  function Shots2(bs: seq<Balloon>, k: nat): nat
    decreases |bs|
  {
    if |bs| == 0 then 0 else 1 + Shots2(Shot(bs, Arrow(k)), k + 1)
  }

  /** A shot bursts one balloon, or two when the count is even. */
  lemma ShotSize(bs: seq<Balloon>, a: Balloon)
    requires |bs| > 0
    ensures |Shot(bs, a)| == |bs| - 1 || (|bs| % 2 == 0 && |Shot(bs, a)| == |bs| - 2)
  {
  }

  /** At least one arrow per two balloons and at most one per balloon. */
  lemma {:induction false} Shots2Bounds(bs: seq<Balloon>, k: nat)
    ensures (|bs| + 1) / 2 <= Shots2(bs, k) <= |bs|
    decreases |bs|
  {
    if |bs| > 0 {
      ShotSize(bs, Arrow(k));
      Shots2Bounds(Shot(bs, Arrow(k)), k + 1);
    }
  }

  /** `solve2`. */
  method Solve2(balloons: seq<Balloon>, reps: int) returns (r: nat)
    ensures r == Shots2(Repeat(balloons, reps), 0)
  {
    var bs := Repeat(balloons, reps);
    var i := 1;
    while true
      invariant i >= 1 && (i - 1) + Shots2(bs, i - 1) == Shots2(Repeat(balloons, reps), 0)
      decreases |bs|
    {
      if |bs| == 0 {
        return i - 1;
      }
      var arrow := Arrow(i - 1);
      ghost var next := Shot(bs, arrow);
      var n := |bs|;
      if n % 2 == 0 {
        var mid := n / 2;
        if arrow == bs[0] {
          bs := bs[1..mid] + bs[mid + 1..];
        } else {
          bs := bs[1..];
        }
      } else {
        bs := bs[1..];
      }
      assert bs == next;
      i := i + 1;
    }
  }
}
