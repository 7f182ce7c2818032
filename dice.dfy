/** The die of the third puzzle: a deterministic integer state machine
    (`DieState`) owned by a rollable die (`DieRoll`) that maps the state's face
    index to a face value. */
module Dice {

  /** The immutable configuration of one die, as parsed from its input line. */
  datatype Die = Die(id: int, faces: seq<int>, seed: int)

  /** A die can be rolled only with a positive seed (the modulus of the pulse)
      and at least one face (the modulus of the face index); otherwise the
      first roll raises `ZeroDivisionError`, which the model does not
      represent, so rolling is restricted to rollable dice. */
  predicate Rollable(d: Die)
  {
    d.seed >= 1 && |d.faces| >= 1
  }

  /** The fingerprint `h()`: the whole generator state, used as a dedup key. */
  datatype Fingerprint = Fingerprint(pulse: int, face: int, rollNumber: int)

  /** The state a fresh `DieRoll` starts from: pulse = seed, face 0, roll number 1. */
  function Initial(d: Die): Fingerprint
  {
    Fingerprint(d.seed, 0, 1)
  }

  /** One transition of the generator (`DieState.next`), on values.
      The spin is taken from the state before the call. */
  function Step(fp: Fingerprint, seed: int, numFaces: int): (r: Fingerprint)
    requires seed >= 1 && numFaces >= 1
    ensures 0 <= r.face < numFaces
    ensures r.rollNumber == fp.rollNumber + 1
    ensures fp.rollNumber + seed + 1 <= r.pulse <= fp.rollNumber + 2 * seed
  {
    var spin := fp.rollNumber * fp.pulse;
    Fingerprint((fp.pulse + spin) % seed + 1 + fp.rollNumber + seed,
                (fp.face + spin) % numFaces,
                fp.rollNumber + 1)
  }

  /** The generator state after `k` transitions from `fp`. */
  function Iterate(fp: Fingerprint, seed: int, numFaces: int, k: nat): Fingerprint
    requires seed >= 1 && numFaces >= 1
  {
    if k == 0 then fp else Step(Iterate(fp, seed, numFaces, k - 1), seed, numFaces)
  }

  /** The roll number counts the transitions: it grows by exactly one per roll. */
  lemma {:induction false} IterateRollNumber(fp: Fingerprint, seed: int, numFaces: int, k: nat)
    requires seed >= 1 && numFaces >= 1
    ensures Iterate(fp, seed, numFaces, k).rollNumber == fp.rollNumber + k
  {
    if k > 0 {
      IterateRollNumber(fp, seed, numFaces, k - 1);
    }
  }

  /** Fingerprints taken after different numbers of rolls are different, so a
      dedup key containing the fingerprint never confuses two moments of one die. */
  lemma FingerprintsDistinct(fp: Fingerprint, seed: int, numFaces: int, i: nat, j: nat)
    requires seed >= 1 && numFaces >= 1
    requires i != j
    ensures Iterate(fp, seed, numFaces, i) != Iterate(fp, seed, numFaces, j)
  {
    IterateRollNumber(fp, seed, numFaces, i);
    IterateRollNumber(fp, seed, numFaces, j);
  }

  /** Starting from a valid face index, the face index stays a valid index
      into the faces after any number of rolls. */
  lemma FaceInRange(fp: Fingerprint, seed: int, numFaces: int, k: nat)
    requires seed >= 1 && numFaces >= 1
    requires 0 <= fp.face < numFaces
    ensures 0 <= Iterate(fp, seed, numFaces, k).face < numFaces
  {
  }

  /** The generator state of die `d` after `k` rolls from `fp`. */
  function After(d: Die, fp: Fingerprint, k: nat): Fingerprint
    requires Rollable(d)
  {
    Iterate(fp, d.seed, |d.faces|, k)
  }

  /** The value of the `k`-th roll (k >= 1) of die `d`, starting from state `fp`. */
  function RollValue(d: Die, fp: Fingerprint, k: nat): (v: int)
    requires Rollable(d) && k >= 1
    ensures v in d.faces
  {
    d.faces[After(d, fp, k).face]
  }

  /** The first `k` roll values of die `d` from state `fp`, in order. */
  function Rolls(d: Die, fp: Fingerprint, k: nat): (r: seq<int>)
    requires Rollable(d)
    ensures |r| == k
    ensures forall i :: 0 <= i < k ==> r[i] == RollValue(d, fp, i + 1) && r[i] in d.faces
  {
    if k == 0 then [] else Rolls(d, fp, k - 1) + [RollValue(d, fp, k)]
  }

  /** Rolling is deterministic: the same configuration and state always give the
      same roll sequence, and a longer run extends a shorter one. */
  lemma {:induction false} RollsPrefix(d: Die, fp: Fingerprint, j: nat, k: nat)
    requires Rollable(d) && j <= k
    ensures Rolls(d, fp, j) == Rolls(d, fp, k)[..j]
  {
    if j < k {
      RollsPrefix(d, fp, j, k - 1);
    }
  }

  /** The mutable generator state (`DieState`). */
  class DieState {
    var pulse: int
    var face: int
    var rollNumber: int

    /** `DieState(pulse)` with the default face 0 and roll number 1. */
    constructor (pulse: int)
      ensures H() == Fingerprint(pulse, 0, 1)
    {
      this.pulse := pulse;
      face := 0;
      rollNumber := 1;
    }

    /** The fingerprint `h()`; a function, so it changes nothing. */
    function H(): Fingerprint
      reads this
    {
      Fingerprint(pulse, face, rollNumber)
    }

    /** The `spin` property: roll number times pulse. */
    function Spin(): int
      reads this
    {
      rollNumber * pulse
    }

    /** `next(seed, num_faces)`: advance the state in place and return the new
        face index. */
    method Next(seed: int, numFaces: int) returns (f: int)
      requires seed >= 1 && numFaces >= 1
      modifies this
      ensures H() == Step(old(H()), seed, numFaces)
      ensures f == face && 0 <= f < numFaces
    {
      var spin := Spin();
      pulse := pulse + spin;
      pulse := pulse % seed;
      pulse := pulse + 1 + rollNumber + seed;
      rollNumber := rollNumber + 1;
      face := face + spin;
      face := face % numFaces;
      f := face;
    }
  }

  /** A die bound to its own generator state (`DieRoll`). */
  class DieRoll {
    const die: Die
    const state: DieState

    constructor (die: Die)
      ensures this.die == die && fresh(state)
      ensures state.H() == Initial(die)
    {
      this.die := die;
      state := new DieState(die.seed);
    }

    /** The current fingerprint; reading it does not advance the die. */
    function H(): Fingerprint
      reads state
    {
      state.H()
    }

    /** `roll()`: advance the generator once and return the face value (not the
        index) it lands on. */
    method Roll() returns (v: int)
      requires Rollable(die)
      modifies state
      ensures state.H() == Step(old(state.H()), die.seed, |die.faces|)
      ensures v == die.faces[state.face] && v in die.faces
    {
      var f := state.Next(die.seed, |die.faces|);
      v := die.faces[f];
    }
  }

  /** The configurations of a list of dice. */
  function Configs(dice: seq<DieRoll>): (cs: seq<Die>)
    ensures |cs| == |dice| && forall k :: 0 <= k < |dice| ==> cs[k] == dice[k].die
  {
    seq(|dice|, k requires 0 <= k < |dice| => dice[k].die)
  }

  /** The current fingerprints of a list of dice. */
  function Fingerprints(dice: seq<DieRoll>): (fps: seq<Fingerprint>)
    reads set k | 0 <= k < |dice| :: dice[k].state
    ensures |fps| == |dice| && forall k :: 0 <= k < |dice| ==> fps[k] == dice[k].state.H()
  {
    seq(|dice|, k reads set k | 0 <= k < |dice| :: dice[k].state
                   requires 0 <= k < |dice| => dice[k].state.H())
  }

  /** The generator objects of a list of dice: what rolling them may change. */
  function States(dice: seq<DieRoll>): set<DieState>
  {
    set k | 0 <= k < |dice| :: dice[k].state
  }

  /** No two dice of the list share a generator object: each die differs from
      every die before it. */
  predicate DistinctStates(dice: seq<DieRoll>)
  {
    |dice| == 0 ||
    (DistinctStates(dice[..|dice| - 1]) &&
     forall k :: 0 <= k < |dice| - 1 ==> dice[k].state != dice[|dice| - 1].state)
  }

  /** The generator of die `i` is owned by no other die of the list. */
  lemma {:induction false} DistinctStatesAt(dice: seq<DieRoll>, i: nat)
    requires DistinctStates(dice) && i < |dice|
    ensures forall k :: 0 <= k < |dice| && k != i ==> dice[k].state != dice[i].state
  {
    var n := |dice| - 1;
    var init := dice[..n];
    if i < n {
      DistinctStatesAt(init, i);
      assert forall k :: 0 <= k < n ==> init[k] == dice[k];
    }
  }

  /** All configurations of a list can be rolled. */
  predicate AllRollable(cs: seq<Die>)
  {
    forall k :: 0 <= k < |cs| ==> Rollable(cs[k])
  }

  /** Dice that may be rolled in a list, each owning its own state object. */
  predicate ValidDice(dice: seq<DieRoll>)
  {
    && (forall k :: 0 <= k < |dice| ==> Rollable(dice[k].die))
    && DistinctStates(dice)
  }
}
