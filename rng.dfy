/**
 * The seeded random source of the simulator (scripts/lib/rng.js): a 32-bit
 * FNV-1a hash of the seed, a golden-ratio multiply followed by the MurmurHash3
 * `fmix32` finaliser for sub-seeds, and a Mulberry32 generator whose
 * closure-held state is the field `state` of class `Rng`.
 *
 * Every JavaScript `Math.imul`, `^`, `>>>` and `>>> 0` on 32-bit values is a
 * `bv32` operation here; `next()` is `u / 2^32` for the uint32 `u` that
 * Mulberry32 derives from the advanced state.
 */
module Rng {
  import opened Wrappers

  /** 2^32, the modulus of every uint32 operation. */
  const TwoTo32: int := 0x1_0000_0000

  const FnvOffset: bv32 := 2166136261
  const FnvPrime: bv32 := 16777619

  /** The Weyl increment of Mulberry32; also the state used in place of a zero seed. */
  const Increment: bv32 := 0x6d2b79f5

  /** The golden-ratio multiplier of `deriveSeed`. */
  const GoldenGamma: bv32 := 0x9e3779b1

  /**
   * A seed as `hashSeed` receives it: a finite number, already truncated
   * toward zero, or a string given as its UTF-16 code units.
   */
  datatype SeedInput = Number(n: int) | Text(units: seq<bv16>)

  /** `value >>> 0` of an integer: its residue modulo 2^32. */
  function ToUint32(x: int): bv32
  {
    (x % TwoTo32) as bv32
  }

  // ---------------------------------------------------------------------------
  // hashSeed
  // ---------------------------------------------------------------------------

  /** `hash ^= code`. */
  function FnvXor(hash: bv32, code: bv16): bv32
  {
    hash ^ (code as bv32)
  }

  /** `hash = Math.imul(hash, 16777619)`. */
  function FnvMul(hash: bv32): bv32
  {
    hash * FnvPrime
  }

  /** One FNV-1a round. */
  function FnvStep(hash: bv32, code: bv16): bv32
  {
    FnvMul(FnvXor(hash, code))
  }

  /** FNV-1a rounds over `codes`, starting from `hash`. */
  function FnvFold(hash: bv32, codes: seq<bv16>): bv32
    decreases |codes|
  {
    if codes == [] then hash else FnvFold(FnvStep(hash, codes[0]), codes[1..])
  }

  /** The value `hashSeed` returns. */
  function SeedHash(input: SeedInput): bv32
  {
    match input
    case Number(n) => ToUint32(n)
    case Text(codes) => FnvFold(FnvOffset, codes)
  }

  /** Hashing a concatenation continues from the hash of the prefix. */
  lemma {:induction false} FnvFoldAppend(hash: bv32, a: seq<bv16>, b: seq<bv16>)
    ensures FnvFold(hash, a + b) == FnvFold(FnvFold(hash, a), b)
    decreases |a|
  {
    if a == [] {
      assert a + b == b;
    } else {
      assert (a + b)[0] == a[0];
      assert (a + b)[1..] == a[1..] + b;
      FnvFoldAppend(FnvStep(hash, a[0]), a[1..], b);
    }
  }

  /** `hashSeed`: truncation to uint32 for numbers, FNV-1a over UTF-16 code units for strings. */
  method HashSeed(input: SeedInput) returns (hash: bv32)
    ensures hash == SeedHash(input)
  {
    match input {
      case Number(n) =>
        hash := ToUint32(n);
      case Text(codes) =>
        hash := FnvOffset;
        var i := 0;
        while i < |codes|
          invariant 0 <= i <= |codes|
          invariant FnvFold(hash, codes[i..]) == FnvFold(FnvOffset, codes)
        {
          assert codes[i..][1..] == codes[i + 1..];
          hash := FnvXor(hash, codes[i]);
          hash := FnvMul(hash);
          i := i + 1;
        }
    }
  }

  // ---------------------------------------------------------------------------
  // deriveSeed
  // ---------------------------------------------------------------------------

  /** `mixed ^= mixed >>> 16`. */
  function XorShift16(h: bv32): bv32
  {
    h ^ (h >> 16)
  }

  /** `mixed ^= mixed >>> 13`. */
  function XorShift13(h: bv32): bv32
  {
    h ^ (h >> 13)
  }

  /** `Math.imul(mixed, 0x85ebca6b)`. */
  function MulC1(h: bv32): bv32
  {
    h * 0x85ebca6b
  }

  /** `Math.imul(mixed, 0xc2b2ae35)`. */
  function MulC2(h: bv32): bv32
  {
    h * 0xc2b2ae35
  }

  /** The MurmurHash3 finaliser applied by `deriveSeed`. */
  function Fmix32(h: bv32): bv32
  {
    XorShift16(MulC2(XorShift13(MulC1(XorShift16(h)))))
  }

  /** `x ^ Math.imul(y, 0x9e3779b1)`. */
  function GammaMix(x: bv32, y: bv32): bv32
  {
    x ^ (y * GoldenGamma)
  }

  /** The sub-seed `deriveSeed(baseSeed, index)` computes. */
  function SubSeed(baseSeed: int, index: int): bv32
  {
    Fmix32(GammaMix(ToUint32(baseSeed), ToUint32(index + 1)))
  }

  /** `deriveSeed`, written as the source's sequence of reassignments of `mixed`. */
  method DeriveSeed(baseSeed: int, index: int) returns (mixed: bv32)
    ensures mixed == SubSeed(baseSeed, index)
  {
    var x := ToUint32(baseSeed);
    var y := ToUint32(index + 1);
    mixed := GammaMix(x, y);
    mixed := XorShift16(mixed);
    mixed := MulC1(mixed);
    mixed := XorShift13(mixed);
    mixed := MulC2(mixed);
    mixed := XorShift16(mixed);
  }

  // ---------------------------------------------------------------------------
  // createRng: the Mulberry32 stream, as values
  // ---------------------------------------------------------------------------

  /** The state `createRng` starts from: the seed hash, or the increment when that hash is 0. */
  function InitialState(seed: SeedInput): (s: bv32)
    ensures s != 0
    ensures SeedHash(seed) != 0 ==> s == SeedHash(seed)
  {
    var h := SeedHash(seed);
    if h == 0 then Increment else h
  }

  /** The state after one `next()`. */
  function Step(state: bv32): bv32
  {
    state + Increment
  }

  /** `t = Math.imul(t ^ (t >>> 15), t | 1)`. */
  function Scramble1(t: bv32): bv32
  {
    (t ^ (t >> 15)) * (t | 1)
  }

  /** `t ^= t + Math.imul(t ^ (t >>> 7), t | 61)`. */
  function Scramble2(t: bv32): bv32
  {
    t ^ (t + (t ^ (t >> 7)) * (t | 61))
  }

  /** `(t ^ (t >>> 14)) >>> 0`. */
  function Temper(t: bv32): bv32
  {
    t ^ (t >> 14)
  }

  /** The uint32 `u` that `next()` derives from the advanced state; `next()` returns u / 2^32. */
  function Mix(state: bv32): bv32
  {
    Temper(Scramble2(Scramble1(state)))
  }

  /** u / 2^32 as an exact rational. */
  function Fraction(u: bv32): (x: real)
    ensures 0.0 <= x < 1.0
  {
    (u as int) as real / TwoTo32 as real
  }

  /** `int(min, max)` for a draw `u`: min + floor(u / 2^32 * span). */
  function IntOf(min: int, max: int, u: bv32): int
  {
    min + (u as int * (max - min + 1)) / TwoTo32
  }

  /** u * span < 2^32 * span, so the quotient is below span. */
  lemma IntOfInRange(min: int, max: int, u: bv32)
    requires min <= max
    ensures min <= IntOf(min, max, u) <= max
  {
    var span := max - min + 1;
    var p := u as int * span;
    assert 0 <= p;
    assert p <= (TwoTo32 - 1) * span by {
      MulMonotone(u as int, TwoTo32 - 1, span);
    }
  }

  lemma MulMonotone(a: int, b: int, c: nat)
    requires a <= b
    ensures a * c <= b * c
  {
  }

  /** One `int(min, max)` call on state `state`: the value drawn and the state after it. */
  function DrawInt(state: bv32, min: int, max: int): (r: (int, bv32))
    requires min <= max
    ensures min <= r.0 <= max
    ensures r.1 == Step(state)
  {
    var next := Step(state);
    IntOfInRange(min, max, Mix(next));
    (IntOf(min, max, Mix(next)), next)
  }

  /** The state after `n` calls to `next()`. */
  function StepN(state: bv32, n: nat): bv32
    decreases n
  {
    if n == 0 then state else StepN(Step(state), n - 1)
  }

  lemma {:induction false} StepNAdd(state: bv32, a: nat, b: nat)
    ensures StepN(StepN(state, a), b) == StepN(state, a + b)
    decreases a
  {
    if a > 0 {
      StepNAdd(Step(state), a - 1, b);
    }
  }

  /** The Fisher-Yates pass of `shuffle` from index `i` down to 1: the array it leaves and the state after it. */
  function ShuffleFrom<T>(s: seq<T>, i: nat, state: bv32): (r: (seq<T>, bv32))
    requires i == 0 || i < |s|
    ensures |r.0| == |s|
    decreases i
  {
    if i == 0 then (s, state)
    else
      var (j, next) := DrawInt(state, 0, i);
      ShuffleFrom(s[i := s[j]][j := s[i]], i - 1, next)
  }

  /** One swap of the pass: position `i` trades with the drawn position. */
  lemma ShuffleFromStep<T>(s: seq<T>, i: nat, state: bv32, j: int, next: bv32)
    requires 0 < i < |s|
    requires j == DrawInt(state, 0, i).0 && next == DrawInt(state, 0, i).1
    ensures 0 <= j <= i
    ensures ShuffleFrom(s, i, state).0 == ShuffleFrom(s[i := s[j]][j := s[i]], i - 1, next).0
    ensures ShuffleFrom(s, i, state).1 == ShuffleFrom(s[i := s[j]][j := s[i]], i - 1, next).1
  {
  }

  /** `shuffle(array)` applied to the contents `s` of the array, from state `state`. */
  function Shuffled<T>(s: seq<T>, state: bv32): (r: (seq<T>, bv32))
    ensures |r.0| == |s|
  {
    if |s| == 0 then (s, state) else ShuffleFrom(s, |s| - 1, state)
  }

  /** The pass only swaps cells, so the result is a permutation. */
  lemma {:induction false} ShuffleFromPermutes<T>(s: seq<T>, i: nat, state: bv32)
    requires i == 0 || i < |s|
    ensures multiset(ShuffleFrom(s, i, state).0) == multiset(s)
    decreases i
  {
    if i > 0 {
      var (j, next) := DrawInt(state, 0, i);
      var s' := s[i := s[j]][j := s[i]];
      assert multiset(s') == multiset(s);
      ShuffleFromPermutes(s', i - 1, next);
    }
  }

  /** The pass from index i draws exactly i values. */
  lemma {:induction false} ShuffleFromDraws<T>(s: seq<T>, i: nat, state: bv32)
    requires i == 0 || i < |s|
    ensures ShuffleFrom(s, i, state).1 == StepN(state, i)
    decreases i
  {
    if i > 0 {
      var (j, next) := DrawInt(state, 0, i);
      ShuffleFromDraws(s[i := s[j]][j := s[i]], i - 1, next);
    }
  }

  /** `shuffle` permutes its argument and draws max(0, length - 1) values. */
  lemma ShuffledProperties<T>(s: seq<T>, state: bv32)
    ensures multiset(Shuffled(s, state).0) == multiset(s)
    ensures Shuffled(s, state).1 == StepN(state, if |s| == 0 then 0 else |s| - 1)
  {
    if |s| > 0 {
      ShuffleFromPermutes(s, |s| - 1, state);
      ShuffleFromDraws(s, |s| - 1, state);
    }
  }

  // ---------------------------------------------------------------------------
  // createRng: the generator object
  // ---------------------------------------------------------------------------

  /** The object `createRng(seed)` returns; `state` is its closure variable. */
  class Rng {
    var state: bv32

    constructor (seed: SeedInput)
      ensures state == InitialState(seed)
    {
      var h := HashSeed(seed);
      if h == 0 {
        h := Increment;
      }
      state := h;
    }

    /**
     * `next()`: advance the state by the increment and derive u; the source
     * returns the float u / 2^32, which is Fraction(u), so u is returned here.
     */
    method Next() returns (u: bv32)
      modifies this
      ensures state == Step(old(state))
      ensures u == Mix(state)
    {
      state := Step(state);
      var t := state;
      t := Scramble1(t);
      t := Scramble2(t);
      u := Temper(t);
    }

    /** `int(min, max)`: fails, without drawing, when max < min; otherwise one draw, in [min, max]. */
    method Int(min: int, max: int) returns (r: Result<int>)
      modifies this
      ensures max < min ==> r.Failure? && state == old(state)
      ensures min <= max ==> r == Success(DrawInt(old(state), min, max).0)
                             && state == DrawInt(old(state), min, max).1
    {
      if max < min {
        return Failure("Invalid int range");
      }
      var span := max - min + 1;
      var u := Next();
      // Math.floor(next() * span), exact on the rational u / 2^32
      r := Success(min + (u as int * span) / TwoTo32);
    }

    /** `pick(array)`: None for an empty array (no draw), otherwise the element at one `int(0, length - 1)`. */
    method Pick<T>(items: seq<T>) returns (r: Option<T>)
      modifies this
      ensures |items| == 0 ==> r == None && state == old(state)
      ensures |items| > 0 ==> state == Step(old(state))
                              && r == Some(items[DrawInt(old(state), 0, |items| - 1).0])
      ensures r.Some? ==> r.value in items
    {
      if |items| == 0 {
        return None;
      }
      var k := Int(0, |items| - 1);
      r := Some(items[k.value]);
    }

    /** `[array[i], array[j]] = [array[j], array[i]]`. */
    static method SwapCells<T>(a: array<T>, i: nat, j: nat)
      requires i < a.Length && j < a.Length
      modifies a
      ensures a[..] == old(a[..])[i := old(a[j])][j := old(a[i])]
    {
      a[i], a[j] := a[j], a[i];
    }

    /** `shuffle(array)`: the descending Fisher-Yates pass, in place; the same array is returned. */
    method Shuffle<T>(a: array<T>) returns (same: array<T>)
      modifies this, a
      ensures same == a
      ensures a[..] == Shuffled(old(a[..]), old(state)).0
      ensures state == Shuffled(old(a[..]), old(state)).1
    {
      same := a;
      if a.Length == 0 {
        return;
      }
      ghost var goal := Shuffled(a[..], state);
      var i := a.Length - 1;
      while i > 0
        invariant 0 <= i < a.Length
        invariant ShuffleFrom(a[..], i, state).0 == goal.0
        invariant ShuffleFrom(a[..], i, state).1 == goal.1
      {
        ghost var before := a[..];
        ghost var s0 := state;
        var k := Int(0, i);
        var j := k.value;
        SwapCells(a, i, j);
        ShuffleFromStep(before, i, s0, j, state);
        i := i - 1;
      }
    }
  }
}
