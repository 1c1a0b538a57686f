/**
 * The parts of the Java platform that the game engine relies on: 32-bit
 * `int` arithmetic, `IntStream.sum`, `Collection.remove(Object)` for objects
 * without an `equals` of their own, and `Collections.shuffle` driven by a
 * random generator whose outputs are left arbitrary.
 */
module JavaUtil {

  // ---------------------------------------------------------------------
  // 32-bit int arithmetic

  const Int32Min: int := -0x8000_0000
  const Int32Max: int := 0x7fff_ffff
  const Int32Modulus: int := 0x1_0000_0000

  predicate IsInt32(x: int) {
    Int32Min <= x <= Int32Max
  }

  /** The Java `int` that an exact integer wraps around to. */
  function ToInt32(x: int): (r: int)
    ensures IsInt32(r)
    ensures IsInt32(x) ==> r == x
  {
    (x - Int32Min) % Int32Modulus + Int32Min
  }

  /** Wrapping is insensitive to whole turns of the modulus. */
  lemma ToInt32Periodic(x: int, k: int)
    ensures ToInt32(x + k * Int32Modulus) == ToInt32(x)
  {
    var y := x - Int32Min;
    assert (y + k * Int32Modulus) % Int32Modulus == y % Int32Modulus;
  }

  /** Wrapping an intermediate sum does not change the wrapped total. */
  lemma ToInt32Add(a: int, b: int)
    ensures ToInt32(a + ToInt32(b)) == ToInt32(a + b)
  {
    var k := (b - Int32Min) / Int32Modulus;
    assert ToInt32(b) == b - k * Int32Modulus;
    ToInt32Periodic(a + b, -k);
  }

  // ---------------------------------------------------------------------
  // Sums

  /** The exact sum of a sequence, folded from the left. */
  function Sum(xs: seq<int>): int {
    if xs == [] then 0 else Sum(xs[..|xs| - 1]) + xs[|xs| - 1]
  }

  lemma {:induction false} SumAppend(xs: seq<int>, ys: seq<int>)
    ensures Sum(xs + ys) == Sum(xs) + Sum(ys)
  {
    if ys == [] {
      assert xs + ys == xs;
    } else {
      var n := |ys| - 1;
      assert (xs + ys)[..|xs + ys| - 1] == xs + ys[..n];
      SumAppend(xs, ys[..n]);
    }
  }

  /**
   * `IntStream.sum`: a left fold of `int` additions, each of which wraps
   * around on overflow.
   */
  function Int32Sum(xs: seq<int>): (r: int)
    ensures IsInt32(r)
  {
    if xs == [] then 0 else ToInt32(Int32Sum(xs[..|xs| - 1]) + xs[|xs| - 1])
  }

  /** The stream sum is the exact sum wrapped once, at the end. */
  lemma {:induction false} Int32SumIsWrappedSum(xs: seq<int>)
    ensures Int32Sum(xs) == ToInt32(Sum(xs))
  {
    if xs != [] {
      var init, last := xs[..|xs| - 1], xs[|xs| - 1];
      Int32SumIsWrappedSum(init);
      ToInt32Add(last, Sum(init));
    }
  }

  // ---------------------------------------------------------------------
  // Lists and strings

  /**
   * `indexOf`: the first position holding `x` (compared with `==`, which on
   * objects without an `equals` of their own is reference identity), or -1.
   */
  function IndexOf<T(==)>(s: seq<T>, x: T): (i: int)
    ensures -1 <= i < |s|
    ensures i == -1 <==> x !in s
    ensures 0 <= i ==> s[i] == x && x !in s[..i]
  {
    if s == [] then -1
    else if s[0] == x then 0
    else
      var j := IndexOf(s[1..], x);
      assert s == [s[0]] + s[1..];
      if j == -1 then -1
      else
        assert s[..j + 1] == [s[0]] + s[1..][..j];
        j + 1
  }

  /**
   * `Collection.remove(Object)`: the first occurrence of `x` is taken out;
   * the list is left as it was when `x` is not in it.
   */
  function RemoveFirst<T(==)>(s: seq<T>, x: T): (r: seq<T>)
    ensures x !in s ==> r == s
    ensures x in s ==> |r| == |s| - 1 && multiset(r) == multiset(s) - multiset{x}
    ensures x in s ==> r == s[..IndexOf(s, x)] + s[IndexOf(s, x) + 1..]
  {
    var i := IndexOf(s, x);
    if i == -1 then s
    else
      assert s == s[..i] + [x] + s[i + 1..];
      s[..i] + s[i + 1..]
  }

  // ---------------------------------------------------------------------
  // Randomness

  /**
   * A `java.util.Random`. Neither its generator nor the way `nextInt(bound)`
   * turns raw bits into a value (the high bits for a power-of-two bound, a
   * fresh draw on rejection) is reproduced: `stream` is an arbitrary
   * sequence of draws, and the n-th call of `nextInt` gives an arbitrary
   * value below its bound taken from `stream(n)`. Every property proved
   * here therefore holds for every seed.
   */
  class Random {
    const stream: nat -> nat
    var drawn: nat

    constructor (stream: nat -> nat)
      ensures this.stream == stream && drawn == 0
    {
      this.stream := stream;
      drawn := 0;
    }

    /** `nextInt(bound)`: the next draw, a value below `bound`. */
    method NextInt(bound: nat) returns (r: nat)
      requires bound > 0
      modifies this
      ensures r < bound
      ensures r == stream(old(drawn)) % bound && drawn == old(drawn) + 1
    {
      r := stream(drawn) % bound;
      drawn := drawn + 1;
    }
  }

  /** Exchanges two positions of a sequence. */
  function Swap<T>(s: seq<T>, i: nat, j: nat): (r: seq<T>)
    requires i < |s| && j < |s|
    ensures |r| == |s| && r[i] == s[j] && r[j] == s[i]
    ensures forall k :: 0 <= k < |s| && k != i && k != j ==> r[k] == s[k]
  {
    s[i := s[j]][j := s[i]]
  }

  lemma SwapIsPermutation<T>(s: seq<T>, i: nat, j: nat)
    requires i < |s| && j < |s|
    ensures multiset(Swap(s, i, j)) == multiset(s)
  {
  }

  /**
   * `Collections.shuffle(list, rnd)`: from the last position down to the
   * second, swap the element there with one at a position drawn below it
   * (or at it).
   */
  method Shuffle<T>(list: seq<T>, rnd: Random) returns (shuffled: seq<T>)
    modifies rnd
    ensures |shuffled| == |list| && multiset(shuffled) == multiset(list)
  {
    shuffled := list;
    var i := |list|;
    while i > 1
      invariant 0 <= i <= |list|
      invariant |shuffled| == |list| && multiset(shuffled) == multiset(list)
    {
      var j := rnd.NextInt(i);
      SwapIsPermutation(shuffled, i - 1, j);
      shuffled := Swap(shuffled, i - 1, j);
      i := i - 1;
    }
  }
}
