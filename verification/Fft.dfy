/**
 A commutative ring given by its operations. Each law is a predicate of its own, so that a proof
 uses a law exactly where it names it.
 */
module Rings {

  datatype Ring<!T(!new)> = Ring(zero: T, one: T, add: (T, T) -> T, neg: T -> T, mul: (T, T) -> T) {

    function Sub(a: T, b: T): T {
      add(a, neg(b))
    }

    ghost predicate AddCommutes(a: T, b: T) {
      add(a, b) == add(b, a)
    }

    ghost predicate AddAssociates(a: T, b: T, c: T) {
      add(add(a, b), c) == add(a, add(b, c))
    }

    ghost predicate ZeroIsUnit(a: T) {
      add(a, zero) == a
    }

    ghost predicate NegInverts(a: T) {
      add(a, neg(a)) == zero
    }

    ghost predicate MulCommutes(a: T, b: T) {
      mul(a, b) == mul(b, a)
    }

    ghost predicate MulAssociates(a: T, b: T, c: T) {
      mul(mul(a, b), c) == mul(a, mul(b, c))
    }

    ghost predicate OneIsUnit(a: T) {
      mul(a, one) == a
    }

    ghost predicate Distributes(a: T, b: T, c: T) {
      mul(a, add(b, c)) == add(mul(a, b), mul(a, c))
    }

    ghost predicate Lawful() {
      && (forall a, b :: AddCommutes(a, b))
      && (forall a, b, c :: AddAssociates(a, b, c))
      && (forall a :: ZeroIsUnit(a))
      && (forall a :: NegInverts(a))
      && (forall a, b :: MulCommutes(a, b))
      && (forall a, b, c :: MulAssociates(a, b, c))
      && (forall a :: OneIsUnit(a))
      && (forall a, b, c :: Distributes(a, b, c))
    }

    lemma AddSwap(a: T, b: T, c: T, d: T)
      requires Lawful()
      ensures add(add(a, b), add(c, d)) == add(add(a, c), add(b, d))
    {
      calc {
        add(add(a, b), add(c, d));
        { assert AddAssociates(a, b, add(c, d)); }
        add(a, add(b, add(c, d)));
        { assert AddAssociates(b, c, d) && AddCommutes(b, c) && AddAssociates(c, b, d); }
        add(a, add(c, add(b, d)));
        { assert AddAssociates(a, c, add(b, d)); }
        add(add(a, c), add(b, d));
      }
    }

    lemma MulZero(a: T)
      requires Lawful()
      ensures mul(a, zero) == zero
    {
      var z := mul(a, zero);
      assert ZeroIsUnit(zero) && Distributes(a, zero, zero);
      assert add(z, z) == z;
      assert AddAssociates(z, z, neg(z)) && NegInverts(z) && ZeroIsUnit(z);
    }

    // An additive inverse is unique.
    lemma NegUnique(a: T, b: T)
      requires Lawful() && add(a, b) == zero
      ensures b == neg(a)
    {
      calc {
        b;
        { assert ZeroIsUnit(b) && NegInverts(a); }
        add(b, add(a, neg(a)));
        { assert AddAssociates(b, a, neg(a)) && AddCommutes(b, a); }
        add(zero, neg(a));
        { assert AddCommutes(zero, neg(a)) && ZeroIsUnit(neg(a)); }
        neg(a);
      }
    }

    lemma MulNeg(a: T, b: T)
      requires Lawful()
      ensures mul(neg(a), b) == neg(mul(a, b))
    {
      assert MulCommutes(a, b) && MulCommutes(neg(a), b) && Distributes(b, a, neg(a)) && NegInverts(a);
      MulZero(b);
      NegUnique(mul(a, b), mul(neg(a), b));
    }

    lemma NegNeg(a: T)
      requires Lawful()
      ensures neg(neg(a)) == a
    {
      assert NegInverts(a) && AddCommutes(a, neg(a));
      NegUnique(neg(a), a);
    }

    function Pow(w: T, e: nat): T {
      if e == 0 then one else mul(Pow(w, e - 1), w)
    }

    lemma {:induction false} PowAdd(w: T, a: nat, b: nat)
      requires Lawful()
      ensures Pow(w, a + b) == mul(Pow(w, a), Pow(w, b))
    {
      if b == 0 {
        assert OneIsUnit(Pow(w, a));
      } else {
        PowAdd(w, a, b - 1);
        assert MulAssociates(Pow(w, a), Pow(w, b - 1), w);
      }
    }

    lemma {:induction false} PowSquare(w: T, e: nat)
      requires Lawful()
      ensures Pow(mul(w, w), e) == Pow(w, 2 * e)
    {
      if e == 0 {
      } else {
        PowSquare(w, e - 1);
        assert Pow(w, 2 * e) == mul(mul(Pow(w, 2 * e - 2), w), w);
        assert MulAssociates(Pow(w, 2 * e - 2), w, w);
      }
    }

    // A period of w is a period of its powers.
    lemma {:induction false} PowPeriod(w: T, m: nat, i: nat)
      requires Lawful() && Pow(w, m) == one
      ensures Pow(w, m * i) == one
    {
      if i == 0 {
        assert m * i == 0;
      } else {
        PowPeriod(w, m, i - 1);
        assert m * i == m * (i - 1) + m;
        PowAdd(w, m * (i - 1), m);
        assert OneIsUnit(one);
      }
    }
  }
}

/** Powers of two and the reversal of the low bits of an index. */
module BitReversal {

  function Pow2(k: nat): (n: nat)
    ensures n >= 1
  {
    if k == 0 then 1 else 2 * Pow2(k - 1)
  }

  lemma {:induction false} Pow2Monotone(a: nat, b: nat)
    ensures Pow2(a) <= Pow2(b) <==> a <= b
    decreases a + b
  {
    if a == 0 || b == 0 {
    } else {
      Pow2Monotone(a - 1, b - 1);
    }
  }

  // i shifted left by s bits.
  function Shl(i: nat, s: nat): nat
    decreases s
  {
    if s == 0 then i else Shl(2 * i, s - 1)
  }

  lemma {:induction false} ShlNext(i: nat, s: nat)
    ensures Shl(i + 1, s) == Shl(i, s) + Pow2(s)
    decreases s
  {
    if s == 0 {
    } else {
      ShlNext(2 * i, s - 1);
      ShlNext(2 * i + 1, s - 1);
    }
  }

  lemma {:induction false} ShlZero(s: nat)
    ensures Shl(0, s) == 0
  {
    if s == 0 {
    } else {
      ShlZero(s - 1);
    }
  }

  lemma {:induction false} ShlOrdered(i: nat, j: nat, s: nat)
    requires i < j
    ensures Shl(i, s) + Pow2(s) <= Shl(j, s)
    decreases j
  {
    ShlNext(j - 1, s);
    if i == j - 1 {
    } else {
      ShlOrdered(i, j - 1, s);
    }
  }

  lemma {:induction false} ShlPow2(d: nat, s: nat)
    ensures Shl(Pow2(d), s) == Pow2(d + s)
    decreases s
  {
    if s == 0 {
    } else {
      ShlPow2(d + 1, s - 1);
    }
  }

  // The low k bits of i in reverse order.
  function Rev(k: nat, i: nat): (r: nat)
    ensures r < Pow2(k)
  {
    if k == 0 then 0 else (if i % 2 == 1 then Pow2(k - 1) else 0) + Rev(k - 1, i / 2)
  }

  // Appending a top bit to the argument appends a bottom bit to the reversal.
  lemma {:induction false} RevTopBit(k: nat, i: nat)
    requires i < Pow2(k)
    ensures Rev(k + 1, i) == 2 * Rev(k, i)
    ensures Rev(k + 1, Pow2(k) + i) == 2 * Rev(k, i) + 1
  {
    if k == 0 {
    } else {
      RevTopBit(k - 1, i / 2);
      assert (Pow2(k) + i) / 2 == Pow2(k - 1) + i / 2;
    }
  }

  lemma {:induction false} RevInvolution(k: nat, i: nat)
    requires i < Pow2(k)
    ensures Rev(k, Rev(k, i)) == i
  {
    if k == 0 {
    } else {
      RevInvolution(k - 1, i / 2);
      RevTopBit(k - 1, Rev(k - 1, i / 2));
    }
  }

  // Whether j and the power of two bit have a bit in common.
  predicate BitSet(j: nat, bit: nat) {
    if bit == 0 then false else if bit == 1 then j % 2 == 1 else BitSet(j / 2, bit / 2)
  }

  // Exclusive or with a single bit.
  function Flip(j: nat, bit: nat): nat {
    if BitSet(j, bit) && bit <= j then j - bit else j + bit
  }

  // What the carry loop leaves in j: a carry that runs from the top bit downwards.
  function Carry(j: nat, bit: nat): nat
    decreases bit
  {
    if BitSet(j, bit) then Carry(Flip(j, bit), bit / 2) else Flip(j, bit)
  }

  lemma {:induction false} TopBit(k: nat, j: nat)
    requires j < Pow2(k + 1)
    ensures BitSet(j, Pow2(k)) <==> j >= Pow2(k)
  {
    if k == 0 {
    } else {
      TopBit(k - 1, j / 2);
    }
  }

  // One run of the carry loop takes the reversal of i to the reversal of i + 1.
  lemma {:induction false} CarryIncrements(k: nat, i: nat)
    requires i + 1 < Pow2(k)
    ensures Carry(Rev(k, i), Pow2(k) / 2) == Rev(k, i + 1)
  {
    var bit := Pow2(k - 1);
    var low := Rev(k - 1, i / 2);
    TopBit(k - 1, Rev(k, i));
    if i % 2 == 1 {
      assert Rev(k, i) == bit + low;
      assert (i + 1) / 2 == i / 2 + 1 && (i + 1) % 2 == 0;
      CarryIncrements(k - 1, i / 2);
    } else {
      assert Rev(k, i) == low;
      assert (i + 1) / 2 == i / 2 && (i + 1) % 2 == 1;
    }
  }

  /** The carry loop: a counter that is kept with its bits reversed goes up by one. */
  method NextReversed(n: nat, reversed: nat, ghost k: nat, ghost i: nat) returns (j: nat)
    requires n == Pow2(k) && i + 1 < n && reversed == Rev(k, i)
    ensures j == Rev(k, i + 1)
  {
    CarryIncrements(k, i);
    j := reversed;
    var bit: nat := n / 2;
    while BitSet(j, bit)
      invariant Carry(j, bit) == Carry(reversed, n / 2)
      decreases bit
    {
      j, bit := Flip(j, bit), bit / 2;
    }
    j := Flip(j, bit);
  }

  // The entry at i once the swaps at all indices below bound have been made.
  ghost function Swapped<T>(was: seq<T>, k: nat, bound: nat, i: nat): T
    requires |was| == Pow2(k) && i < |was|
  {
    if i < bound || Rev(k, i) < bound then was[Rev(k, i)] else was[i]
  }

  // The carry loop followed by the conditional swap, for every index in turn.
  method BitReverse<T>(values: array<T>, k: nat)
    requires values.Length == Pow2(k)
    modifies values
    ensures forall i :: 0 <= i < values.Length ==> values[i] == old(values[..])[Rev(k, i)]
  {
    ghost var was := values[..];
    var n := values.Length;
    var j := 0;
    RevZero(k);
    for index := 1 to n
      invariant j == Rev(k, index - 1)
      invariant forall i :: 0 <= i < n ==> values[i] == Swapped(was, k, index, i)
    {
      j := NextReversed(n, j, k, index - 1);
      RevInvolution(k, index);
      forall i | 0 <= i < n && i != index && i != j
        ensures Swapped(was, k, index, i) == Swapped(was, k, index + 1, i)
      {
        RevInvolution(k, i);
      }
      if index < j {
        values[index], values[j] := values[j], values[index];
      }
    }
  }

  lemma {:induction false} RevZero(k: nat)
    ensures Rev(k, 0) == 0
    ensures forall i :: 0 <= i < Pow2(k) && Rev(k, i) == 0 ==> i == 0
  {
    if k == 0 {
    } else {
      RevZero(k - 1);
    }
    forall i | 0 <= i < Pow2(k) && Rev(k, i) == 0 ensures i == 0 {
      RevInvolution(k, i);
    }
  }
}

/** The radix-2 transform, the discrete Fourier transform it computes, and the peak it selects. */
module Fft {
  import opened Rings
  import opened BitReversal

  // The first n terms of the sum of x[i] * w^(j * i).
  function DftSum<T(!new)>(R: Ring<T>, x: seq<T>, w: T, j: nat, n: nat): T
    requires n <= |x|
  {
    if n == 0 then R.zero
    else R.add(DftSum(R, x, w, j, n - 1), R.mul(x[n - 1], R.Pow(w, j * (n - 1))))
  }

  // Entry j of the discrete Fourier transform of x for the root w.
  function Dft<T(!new)>(R: Ring<T>, x: seq<T>, w: T, j: nat): T {
    DftSum(R, x, w, j, |x|)
  }

  /** root(s) is the twiddle root of stage s, whose butterflies have length 2^s: for the complex
      numbers exp(-2 pi i / 2^s). These two facts about it are all the transform needs. */
  ghost predicate RootsOfUnity<T(!new)>(R: Ring<T>, root: nat -> T, k: nat) {
    && root(1) == R.neg(R.one)
    && forall s :: 1 <= s < k ==> R.mul(root(s + 1), root(s + 1)) == root(s)
  }

  lemma {:induction false} RootHalfPower<T(!new)>(R: Ring<T>, root: nat -> T, k: nat, s: nat)
    requires R.Lawful() && RootsOfUnity(R, root, k) && 1 <= s <= k
    ensures R.Pow(root(s), Pow2(s - 1)) == R.neg(R.one)
  {
    if s == 1 {
      assert R.Pow(root(1), 1) == R.mul(R.one, root(1));
      assert R.MulCommutes(R.one, root(1)) && R.OneIsUnit(root(1));
    } else {
      RootHalfPower(R, root, k, s - 1);
      R.PowSquare(root(s), Pow2(s - 2));
    }
  }

  lemma RootFullPower<T(!new)>(R: Ring<T>, root: nat -> T, k: nat, s: nat)
    requires R.Lawful() && RootsOfUnity(R, root, k) && 1 <= s <= k
    ensures R.Pow(root(s), Pow2(s)) == R.one
  {
    var minusOne := R.neg(R.one);
    RootHalfPower(R, root, k, s);
    R.PowAdd(root(s), Pow2(s - 1), Pow2(s - 1));
    R.MulNeg(R.one, minusOne);
    assert R.MulCommutes(R.one, minusOne) && R.OneIsUnit(minusOne);
    R.NegNeg(R.one);
  }

  // The entries of x whose index has the given parity.
  function Half<T>(x: seq<T>, parity: nat): (h: seq<T>)
    requires |x| % 2 == 0 && parity < 2
    ensures |h| == |x| / 2
    ensures forall i :: 0 <= i < |h| ==> h[i] == x[2 * i + parity]
  {
    seq(|x| / 2, i requires 0 <= i < |x| / 2 => x[2 * i + parity])
  }

  // The twiddle factors of terms 2m and 2m + 1 in terms of the square of the root.
  lemma EvenTwiddle<T(!new)>(R: Ring<T>, w: T, j: nat, m: nat)
    requires R.Lawful()
    ensures R.Pow(w, j * (2 * m)) == R.Pow(R.mul(w, w), j * m)
  {
    assert j * (2 * m) == 2 * (j * m);
    R.PowSquare(w, j * m);
  }

  lemma OddTwiddle<T(!new)>(R: Ring<T>, w: T, j: nat, m: nat, a: T)
    requires R.Lawful()
    ensures R.mul(a, R.Pow(w, j * (2 * m + 1))) == R.mul(R.Pow(w, j), R.mul(a, R.Pow(R.mul(w, w), j * m)))
  {
    EvenTwiddle(R, w, j, m);
    var t, f := R.Pow(R.mul(w, w), j * m), R.Pow(w, j);
    assert j * (2 * m + 1) == j * (2 * m) + j;
    R.PowAdd(w, j * (2 * m), j);
    assert R.MulAssociates(a, t, f) && R.MulCommutes(R.mul(a, t), f);
  }

  lemma Regroup<T(!new)>(R: Ring<T>, e: T, o: T, f: T, a: T, b: T)
    requires R.Lawful()
    ensures R.add(R.add(R.add(e, R.mul(f, o)), a), R.mul(f, b)) == R.add(R.add(e, a), R.mul(f, R.add(o, b)))
  {
    assert R.AddAssociates(R.add(e, R.mul(f, o)), a, R.mul(f, b));
    R.AddSwap(e, R.mul(f, o), a, R.mul(f, b));
    assert R.Distributes(f, o, b);
  }

  lemma LastTwoTerms<T(!new)>(R: Ring<T>, x: seq<T>, w: T, j: nat, m: nat)
    requires 2 * m + 2 <= |x|
    ensures DftSum(R, x, w, j, 2 * m + 2) ==
            R.add(R.add(DftSum(R, x, w, j, 2 * m), R.mul(x[2 * m], R.Pow(w, j * (2 * m)))),
                  R.mul(x[2 * m + 1], R.Pow(w, j * (2 * m + 1))))
  {
    assert DftSum(R, x, w, j, 2 * m + 1) == R.add(DftSum(R, x, w, j, 2 * m), R.mul(x[2 * m], R.Pow(w, j * (2 * m))));
  }

  // What both sides of the split gain when n grows by one.
  lemma SplitStep<T(!new)>(R: Ring<T>, x: seq<T>, w: T, j: nat, m: nat, e: T, o: T)
    requires R.Lawful() && 2 * m + 2 <= |x|
    requires DftSum(R, x, w, j, 2 * m) == R.add(e, R.mul(R.Pow(w, j), o))
    ensures var t := R.Pow(R.mul(w, w), j * m);
            DftSum(R, x, w, j, 2 * m + 2) ==
            R.add(R.add(e, R.mul(x[2 * m], t)), R.mul(R.Pow(w, j), R.add(o, R.mul(x[2 * m + 1], t))))
  {
    var t, f := R.Pow(R.mul(w, w), j * m), R.Pow(w, j);
    LastTwoTerms(R, x, w, j, m);
    TwoTwiddles(R, w, j, m, x[2 * m], x[2 * m + 1]);
    Regroup(R, e, o, f, R.mul(x[2 * m], t), R.mul(x[2 * m + 1], t));
  }

  lemma TwoTwiddles<T(!new)>(R: Ring<T>, w: T, j: nat, m: nat, a: T, b: T)
    requires R.Lawful()
    ensures R.mul(a, R.Pow(w, j * (2 * m))) == R.mul(a, R.Pow(R.mul(w, w), j * m))
    ensures R.mul(b, R.Pow(w, j * (2 * m + 1))) == R.mul(R.Pow(w, j), R.mul(b, R.Pow(R.mul(w, w), j * m)))
  {
    EvenTwiddle(R, w, j, m);
    OddTwiddle(R, w, j, m, b);
  }

  // A sum over 2n terms splits into the sum over the even and the sum over the odd terms.
  lemma {:induction false} DftSplit<T(!new)>(R: Ring<T>, x: seq<T>, x0: seq<T>, x1: seq<T>, w: T, j: nat, n: nat)
    requires R.Lawful() && 2 * n <= |x| && n <= |x0| && n <= |x1|
    requires forall i :: 0 <= i < n ==> x0[i] == x[2 * i] && x1[i] == x[2 * i + 1]
    ensures DftSum(R, x, w, j, 2 * n) ==
            R.add(DftSum(R, x0, R.mul(w, w), j, n), R.mul(R.Pow(w, j), DftSum(R, x1, R.mul(w, w), j, n)))
  {
    if n == 0 {
      R.MulZero(R.Pow(w, j));
      assert R.ZeroIsUnit(R.zero);
    } else {
      var m, v := n - 1, R.mul(w, w);
      DftSplit(R, x, x0, x1, w, j, m);
      SplitStep(R, x, w, j, m, DftSum(R, x0, v, j, m), DftSum(R, x1, v, j, m));
      assert DftSum(R, x0, v, j, n) == R.add(DftSum(R, x0, v, j, m), R.mul(x[2 * m], R.Pow(v, j * m)));
      assert DftSum(R, x1, v, j, n) == R.add(DftSum(R, x1, v, j, m), R.mul(x[2 * m + 1], R.Pow(v, j * m)));
    }
  }

  // A transform of length m repeats with period m.
  lemma {:induction false} DftPeriodic<T(!new)>(R: Ring<T>, x: seq<T>, w: T, j: nat, m: nat, n: nat)
    requires R.Lawful() && n <= |x| && R.Pow(w, m) == R.one
    ensures DftSum(R, x, w, j + m, n) == DftSum(R, x, w, j, n)
  {
    if n == 0 {
    } else {
      DftPeriodic(R, x, w, j, m, n - 1);
      var i := n - 1;
      assert (j + m) * i == j * i + m * i;
      R.PowAdd(w, j * i, m * i);
      R.PowPeriod(w, m, i);
      assert R.OneIsUnit(R.Pow(w, j * i));
    }
  }

  lemma UpperTwiddle<T(!new)>(R: Ring<T>, root: nat -> T, k: nat, s: nat, j: nat)
    requires R.Lawful() && RootsOfUnity(R, root, k) && 1 <= s <= k
    ensures R.Pow(root(s), j + Pow2(s - 1)) == R.neg(R.Pow(root(s), j))
  {
    RootHalfPower(R, root, k, s);
    R.PowAdd(root(s), j, Pow2(s - 1));
    var p := R.Pow(root(s), j);
    assert R.MulCommutes(p, R.neg(R.one)) && R.MulCommutes(R.one, p) && R.OneIsUnit(p);
    R.MulNeg(R.one, p);
  }

  // A half-length transform repeats after 2^(s-1) entries.
  lemma HalfPeriodic<T(!new)>(R: Ring<T>, root: nat -> T, k: nat, s: nat, h: seq<T>, j: nat)
    requires R.Lawful() && RootsOfUnity(R, root, k) && 1 <= s <= k && |h| == Pow2(s - 1)
    ensures Dft(R, h, R.mul(root(s), root(s)), j + Pow2(s - 1)) == Dft(R, h, R.mul(root(s), root(s)), j)
  {
    var half := Pow2(s - 1);
    RootFullPower(R, root, k, s);
    R.PowSquare(root(s), half);
    DftPeriodic(R, h, R.mul(root(s), root(s)), j, half, half);
  }

  /** The butterfly: the transform of length 2^s of x from the transforms of length 2^(s-1) of its
      even and odd entries, for the lower and the upper half of the result. */
  lemma Butterfly<T(!new)>(R: Ring<T>, root: nat -> T, k: nat, s: nat, x: seq<T>, j: nat)
    requires R.Lawful() && RootsOfUnity(R, root, k) && 1 <= s <= k && |x| == Pow2(s) && j < Pow2(s - 1)
    ensures var even := Dft(R, Half(x, 0), root(s - 1), j);
            var odd := R.mul(R.Pow(root(s), j), Dft(R, Half(x, 1), root(s - 1), j));
            && Dft(R, x, root(s), j) == R.add(even, odd)
            && Dft(R, x, root(s), j + Pow2(s - 1)) == R.Sub(even, odd)
  {
    var half, w := Pow2(s - 1), root(s);
    DftSplit(R, x, Half(x, 0), Half(x, 1), w, j, half);
    DftSplit(R, x, Half(x, 0), Half(x, 1), w, j + half, half);
    HalfPeriodic(R, root, k, s, Half(x, 0), j);
    HalfPeriodic(R, root, k, s, Half(x, 1), j);
    UpperTwiddle(R, root, k, s, j);
    R.MulNeg(R.Pow(w, j), Dft(R, Half(x, 1), R.mul(w, w), j));
    SmallRoot(R, root, k, s, Half(x, 0), j);
    SmallRoot(R, root, k, s, Half(x, 1), j);
  }

  // At the first stage the transforms have length one and do not depend on the root.
  lemma SmallRoot<T(!new)>(R: Ring<T>, root: nat -> T, k: nat, s: nat, x: seq<T>, j: nat)
    requires RootsOfUnity(R, root, k) && 1 <= s <= k && |x| == Pow2(s - 1)
    ensures Dft(R, x, R.mul(root(s), root(s)), j) == Dft(R, x, root(s - 1), j)
  {
    if s == 1 {
      var v, u := R.mul(root(s), root(s)), root(0);
      assert R.Pow(v, j * 0) == R.one == R.Pow(u, j * 0);
      assert DftSum(R, x, v, j, 0) == DftSum(R, x, u, j, 0);
    }
  }

  // The entries of x whose index, in its low d bits, is the reversal of b.
  ghost function Decimate<T>(k: nat, d: nat, b: nat, x: seq<T>): (y: seq<T>)
    requires |x| == Pow2(k) && d <= k
    ensures |y| == Pow2(k - d)
  {
    if d == 0 then x else Half(Decimate(k, d - 1, b / 2, x), b % 2)
  }

  lemma DecimateHalves<T>(k: nat, d: nat, b: nat, x: seq<T>)
    requires |x| == Pow2(k) && d < k
    ensures Decimate(k, d + 1, 2 * b, x) == Half(Decimate(k, d, b, x), 0)
    ensures Decimate(k, d + 1, 2 * b + 1, x) == Half(Decimate(k, d, b, x), 1)
  {
  }

  // Where entry i of a decimation comes from.
  ghost function Origin(d: nat, b: nat, i: nat): nat
    decreases d
  {
    if d == 0 then i else Origin(d - 1, b / 2, 2 * i + b % 2)
  }

  lemma {:induction false} OriginIsReversed(d: nat, b: nat, i: nat)
    ensures Origin(d, b, i) == Shl(i, d) + Rev(d, b)
    decreases d
  {
    if d == 0 {
    } else {
      ShlNext(2 * i, d - 1);
      OriginIsReversed(d - 1, b / 2, 2 * i + b % 2);
    }
  }

  lemma {:induction false} DecimateAt<T>(k: nat, d: nat, b: nat, x: seq<T>, i: nat)
    requires |x| == Pow2(k) && d <= k && i < Pow2(k - d)
    ensures Origin(d, b, i) < |x| && Decimate(k, d, b, x)[i] == x[Origin(d, b, i)]
  {
    if d == 0 {
    } else {
      DecimateAt(k, d - 1, b / 2, x, 2 * i + b % 2);
    }
  }

  // The block of length 2^s at start of v holds the transform of y.
  ghost predicate Holds<T(!new)>(R: Ring<T>, w: T, v: seq<T>, start: nat, y: seq<T>) {
    && start + |y| <= |v|
    && forall j :: start <= j < start + |y| ==> v[j] == Dft(R, y, w, j - start)
  }

  // Each block from lo to hi of length 2^s of v holds the transform of its part.
  ghost predicate Blocks<T(!new)>(R: Ring<T>, w: T, v: seq<T>, s: nat, parts: seq<seq<T>>, lo: nat, hi: nat)
    requires hi <= |parts|
  {
    forall b :: lo <= b < hi ==> |parts[b]| == Pow2(s) && Holds(R, w, v, Shl(b, s), parts[b])
  }

  // Blocks outside a rewritten stretch of the buffer stay what they are.
  lemma BlocksFrame<T(!new)>(R: Ring<T>, w: T, v: seq<T>, u: seq<T>, s: nat, parts: seq<seq<T>>,
                             lo: nat, hi: nat, from: nat, to: nat)
    requires hi <= |parts| && Blocks(R, w, v, s, parts, lo, hi) && |u| == |v|
    requires forall i :: 0 <= i < |v| && !(from <= i < to) ==> u[i] == v[i]
    requires Shl(hi, s) <= from || to <= Shl(lo, s)
    ensures Blocks(R, w, u, s, parts, lo, hi)
  {
    forall b | lo <= b < hi ensures |parts[b]| == Pow2(s) && Holds(R, w, u, Shl(b, s), parts[b]) {
      assert Holds(R, w, v, Shl(b, s), parts[b]);
      ShlOrdered(b, hi, s);
      if lo < b {
        ShlOrdered(lo, b, s);
      }
    }
  }

  // All decimations of x by 2^d.
  ghost function Parts<T>(k: nat, d: nat, x: seq<T>): (p: seq<seq<T>>)
    requires |x| == Pow2(k) && d <= k
    ensures |p| == Pow2(d)
    ensures forall b :: 0 <= b < |p| ==> p[b] == Decimate(k, d, b, x)
  {
    seq(Pow2(d), b requires 0 <= b < Pow2(d) => Decimate(k, d, b, x))
  }

  // The parts of one stage are the halves of the parts of the next.
  ghost predicate Halved<T>(fine: seq<seq<T>>, coarse: seq<seq<T>>, s: nat) {
    && |fine| == 2 * |coarse|
    && forall b :: 0 <= b < |coarse| ==>
         && |coarse[b]| == Pow2(s + 1)
         && fine[2 * b] == Half(coarse[b], 0)
         && fine[2 * b + 1] == Half(coarse[b], 1)
  }

  lemma PartsHalved<T>(k: nat, d: nat, x: seq<T>)
    requires |x| == Pow2(k) && d < k
    ensures Halved(Parts(k, d + 1, x), Parts(k, d, x), k - d - 1)
  {
    var fine, coarse := Parts(k, d + 1, x), Parts(k, d, x);
    forall b | 0 <= b < |coarse|
      ensures |coarse[b]| == Pow2(k - d) && fine[2 * b] == Half(coarse[b], 0) && fine[2 * b + 1] == Half(coarse[b], 1)
    {
      DecimateHalves(k, d, b, x);
    }
  }

  // A transform of length one is its only entry.
  lemma OnePoint<T(!new)>(R: Ring<T>, w: T, y: seq<T>, a: T)
    requires y == [a] && R.OneIsUnit(a) && R.AddCommutes(R.zero, a) && R.ZeroIsUnit(a)
    ensures Dft(R, y, w, 0) == a
  {
    assert DftSum(R, y, w, 0, 1) == R.add(DftSum(R, y, w, 0, 0), R.mul(y[0], R.Pow(w, 0 * 0)));
  }

  // What is left of x after k halvings is the entry at the reversed index.
  lemma FullyDecimated<T>(k: nat, b: nat, x: seq<T>)
    requires |x| == Pow2(k) && b < |x|
    ensures Decimate(k, k, b, x) == [x[Rev(k, b)]]
  {
    ShlZero(k);
    OriginIsReversed(k, b, 0);
    DecimateAt(k, k, b, x, 0);
  }

  // A bit-reversed sequence consists of blocks of length one.
  lemma ReversedHolds<T(!new)>(R: Ring<T>, w: T, k: nat, x: seq<T>, v: seq<T>, b: nat)
    requires R.Lawful() && |x| == Pow2(k) && |v| == |x| && b < |v| && v[b] == x[Rev(k, b)]
    ensures Holds(R, w, v, b, Decimate(k, k, b, x))
  {
    FullyDecimated(k, b, x);
    var a := x[Rev(k, b)];
    assert R.OneIsUnit(a) && R.AddCommutes(R.zero, a) && R.ZeroIsUnit(a) by {
      hide Decimate;
    }
    OnePoint(R, w, [a], a);
  }

  ghost predicate Combined<T(!new)>(R: Ring<T>, root: T, was: seq<T>, v: seq<T>, start: nat, half: nat, o: nat)
    requires start + 2 * half <= |was| == |v| && o < half
  {
    var even, odd := was[start + o], R.mul(R.Pow(root, o), was[start + o + half]);
    v[start + o] == R.add(even, odd) && v[start + o + half] == R.Sub(even, odd)
  }

  ghost predicate AllCombined<T(!new)>(R: Ring<T>, root: T, was: seq<T>, v: seq<T>, start: nat, half: nat) {
    && start + 2 * half <= |was| == |v|
    && forall o :: 0 <= o < half ==> Combined(R, root, was, v, start, half, o)
  }

  // The innermost loop: one butterfly of length 2 * half at start, in place.
  method Combine<T(!new)>(R: Ring<T>, values: array<T>, start: nat, half: nat, root: T)
    requires start + 2 * half <= values.Length
    modifies values
    ensures forall i :: 0 <= i < values.Length && !(start <= i < start + 2 * half) ==> values[i] == old(values[i])
    ensures AllCombined(R, root, old(values[..]), values[..], start, half)
  {
    var factor := R.one;
    for offset := 0 to half
      invariant factor == R.Pow(root, offset)
      invariant forall i :: 0 <= i < values.Length && !(start <= i < start + 2 * half) ==> values[i] == old(values[i])
      invariant forall i :: start + offset <= i < start + half ==> values[i] == old(values[i])
      invariant forall i :: start + half + offset <= i < start + 2 * half ==> values[i] == old(values[i])
      invariant forall o :: 0 <= o < offset ==> Combined(R, root, old(values[..]), values[..], start, half, o)
    {
      ghost var was := values[..];
      var even := values[start + offset];
      var odd := R.mul(factor, values[start + offset + half]);
      values[start + offset] := R.add(even, odd);
      values[start + offset + half] := R.Sub(even, odd);
      factor := R.mul(factor, root);
      forall o | 0 <= o < offset + 1 ensures Combined(R, root, old(values[..]), values[..], start, half, o) {
        if o < offset {
          assert Combined(R, root, old(values[..]), was, start, half, o);
        }
      }
    }
  }

  // Combining the transforms of the two halves of y makes the transform of y.
  lemma CombinedHolds<T(!new)>(R: Ring<T>, root: nat -> T, k: nat, s: nat, was: seq<T>, v: seq<T>, start: nat,
                               half: nat, y: seq<T>)
    requires R.Lawful() && RootsOfUnity(R, root, k) && 1 <= s <= k && |was| == |v|
    requires |y| == Pow2(s) && half == Pow2(s - 1) && start + |y| <= |v|
    requires Holds(R, root(s - 1), was, start, Half(y, 0)) && Holds(R, root(s - 1), was, start + half, Half(y, 1))
    requires AllCombined(R, root(s), was, v, start, half)
    ensures Holds(R, root(s), v, start, y)
  {
    forall j | start <= j < start + |y| ensures v[j] == Dft(R, y, root(s), j - start) {
      var o := if j < start + half then j - start else j - start - half;
      Butterfly(R, root, k, s, y, o);
      assert Combined(R, root(s), was, v, start, half, o);
      assert was[start + o] == Dft(R, Half(y, 0), root(s - 1), o);
      assert was[start + half + o] == Dft(R, Half(y, 1), root(s - 1), o);
    }
  }

  lemma NewBlock<T(!new)>(R: Ring<T>, root: nat -> T, k: nat, s: nat, was: seq<T>, v: seq<T>,
                          fine: seq<seq<T>>, y: seq<T>, b: nat, start: nat, half: nat)
    requires R.Lawful() && RootsOfUnity(R, root, k) && 1 <= s <= k && half == Pow2(s - 1)
    requires |y| == Pow2(s) && 2 * b + 2 <= |fine| && fine[2 * b] == Half(y, 0) && fine[2 * b + 1] == Half(y, 1)
    requires start == Shl(b, s) && Blocks(R, root(s - 1), was, s - 1, fine, 2 * b, |fine|)
    requires AllCombined(R, root(s), was, v, start, half)
    ensures Holds(R, root(s), v, start, y)
  {
    ShlNext(2 * b, s - 1);
    assert Holds(R, root(s - 1), was, Shl(2 * b, s - 1), fine[2 * b]);
    assert Holds(R, root(s - 1), was, Shl(2 * b + 1, s - 1), fine[2 * b + 1]);
    CombinedHolds(R, root, k, s, was, v, start, half, y);
  }

  // One butterfly turns two fine blocks into one coarse block and leaves the others alone.
  lemma StageStep<T(!new)>(R: Ring<T>, root: nat -> T, k: nat, s: nat, was: seq<T>, v: seq<T>,
                           fine: seq<seq<T>>, coarse: seq<seq<T>>, b: nat, start: nat, half: nat)
    requires R.Lawful() && RootsOfUnity(R, root, k) && 1 <= s <= k && half == Pow2(s - 1)
    requires Halved(fine, coarse, s - 1) && b < |coarse| && start == Shl(b, s)
    requires Blocks(R, root(s), was, s, coarse, 0, b)
    requires Blocks(R, root(s - 1), was, s - 1, fine, 2 * b, |fine|)
    requires AllCombined(R, root(s), was, v, start, half)
    requires forall i :: 0 <= i < |v| && !(start <= i < start + 2 * half) ==> v[i] == was[i]
    ensures Blocks(R, root(s), v, s, coarse, 0, b + 1)
    ensures Blocks(R, root(s - 1), v, s - 1, fine, 2 * (b + 1), |fine|)
  {
    assert Blocks(R, root(s), v, s, coarse, 0, b) by {
      BlocksFrame(R, root(s), was, v, s, coarse, 0, b, start, start + 2 * half);
    }
    NewBlock(R, root, k, s, was, v, fine, coarse[b], b, start, half);
    assert Blocks(R, root(s - 1), v, s - 1, fine, 2 * (b + 1), |fine|) by {
      ShlNext(b, s);
      BlocksFrame(R, root(s - 1), was, v, s - 1, fine, 2 * (b + 1), |fine|, start, start + 2 * half);
    }
  }

  // The loop over the starts of the blocks of one length.
  method Stage<T(!new)>(R: Ring<T>, root: nat -> T, values: array<T>, k: nat, s: nat, length: nat,
                        ghost fine: seq<seq<T>>, ghost coarse: seq<seq<T>>)
    requires R.Lawful() && RootsOfUnity(R, root, k) && 1 <= s <= k && length == Pow2(s)
    requires Halved(fine, coarse, s - 1) && values.Length == Shl(|coarse|, s)
    requires Blocks(R, root(s - 1), values[..], s - 1, fine, 0, |fine|)
    modifies values
    ensures Blocks(R, root(s), values[..], s, coarse, 0, |coarse|)
  {
    var half := length / 2;
    var start := 0;
    ghost var b: nat, m := 0, |coarse|;
    ShlZero(s);
    while start < values.Length
      invariant start == Shl(b, s) && b <= m
      invariant Blocks(R, root(s), values[..], s, coarse, 0, b)
      invariant Blocks(R, root(s - 1), values[..], s - 1, fine, 2 * b, 2 * m)
      decreases m - b
    {
      ShlNext(b, s);
      ShlOrdered(b, m, s);
      ghost var was := values[..];
      Combine(R, values, start, half, root(s));
      StageStep(R, root, k, s, was, values[..], fine, coarse, b, start, half);
      start, b := start + length, b + 1;
    }
    assert b == m by {
      if b < m {
        ShlOrdered(b, m, s);
      }
    }
  }

  lemma ReversedIsBlocks<T(!new)>(R: Ring<T>, w: T, k: nat, x: seq<T>, v: seq<T>)
    requires R.Lawful() && |x| == Pow2(k) && |v| == |x|
    requires forall b :: 0 <= b < |v| ==> v[b] == x[Rev(k, b)]
    ensures Blocks(R, w, v, 0, Parts(k, k, x), 0, |v|)
  {
    forall b | 0 <= b < |v| ensures Holds(R, w, v, b, Decimate(k, k, b, x)) {
      ReversedHolds(R, w, k, x, v, b);
    }
  }

  // The one block that is left at the end is the whole transform.
  lemma LastBlock<T(!new)>(R: Ring<T>, w: T, k: nat, x: seq<T>, v: seq<T>)
    requires |x| == Pow2(k) && |v| == |x| && Blocks(R, w, v, k, Parts(k, 0, x), 0, 1)
    ensures forall j :: 0 <= j < |v| ==> v[j] == Dft(R, x, w, j)
  {
    ShlZero(k);
    assert Holds(R, w, v, Shl(0, k), Parts(k, 0, x)[0]);
  }

  // The loop over the block lengths 2, 4, ..., 2^k.
  method Stages<T(!new)>(R: Ring<T>, root: nat -> T, values: array<T>, k: nat, ghost x: seq<T>)
    requires R.Lawful() && RootsOfUnity(R, root, k) && values.Length == |x| == Pow2(k)
    requires Blocks(R, root(0), values[..], 0, Parts(k, k, x), 0, |x|)
    modifies values
    ensures Blocks(R, root(k), values[..], k, Parts(k, 0, x), 0, 1)
  {
    var length, s := 2, 1;
    ghost var d, parts := k, Parts(k, k, x);
    while length <= values.Length
      invariant 1 <= s && d + s == k + 1 && length == Pow2(s) && parts == Parts(k, d, x)
      invariant Blocks(R, root(s - 1), values[..], s - 1, parts, 0, |parts|)
      decreases d
    {
      Pow2Monotone(s, k);
      d := d - 1;
      PartsHalved(k, d, x);
      ShlPow2(d, s);
      ghost var coarse := Parts(k, d, x);
      Stage(R, root, values, k, s, length, parts, coarse);
      length, s, parts := length * 2, s + 1, coarse;
    }
    Pow2Monotone(s, k);
  }

  /** Bit reversal and then every butterfly stage: the buffer ends as the transform of what it held. */
  method Transform<T(!new)>(R: Ring<T>, root: nat -> T, values: array<T>, k: nat)
    requires R.Lawful() && RootsOfUnity(R, root, k) && values.Length == Pow2(k)
    modifies values
    ensures forall j :: 0 <= j < values.Length ==> values[j] == Dft(R, old(values[..]), root(k), j)
  {
    ghost var x := values[..];
    BitReverse(values, k);
    ReversedIsBlocks(R, root(0), k, x, values[..]);
    Stages(R, root, values, k, x);
    LastBlock(R, root(k), k, x, values[..]);
  }

  datatype Peak = NoPeak | Bin(index: nat) | IndexError

  const TONAL_MIN_HZ := 80
  const TONAL_MAX_HZ := 8000

  // The first tonal bin: the lowest bin of at least 80 Hz, and never the constant term.
  function FirstBin(n: nat, sampleRate: nat): nat
    requires sampleRate > 0
  {
    var low := (TONAL_MIN_HZ * n + sampleRate - 1) / sampleRate;
    if low < 1 then 1 else low
  }

  // The last tonal bin: the highest bin of at most 8000 Hz, and never beyond half the length.
  function LastBin(n: nat, sampleRate: nat): nat
    requires sampleRate > 0
  {
    var high := TONAL_MAX_HZ * n / sampleRate;
    if n / 2 < high then n / 2 else high
  }

  // The bin is tonal: it is not the constant term, not beyond half the length, and its frequency is from 80 to 8000 Hz.
  predicate Tonal(n: nat, sampleRate: nat, b: nat) {
    1 <= b && 2 * b <= n && 80 * n <= b * sampleRate <= 8000 * n
  }

  lemma TonalIsBetween(n: nat, sampleRate: nat, b: nat)
    requires sampleRate > 0
    ensures Tonal(n, sampleRate, b) <==> FirstBin(n, sampleRate) <= b <= LastBin(n, sampleRate)
  {
    AtLeastQuotient(TONAL_MIN_HZ * n, sampleRate, b);
    AtMostQuotient(TONAL_MAX_HZ * n, sampleRate, b);
  }

  lemma AtLeastQuotient(a: nat, d: nat, b: nat)
    requires d > 0
    ensures (a + d - 1) / d <= b <==> a <= b * d
  {
    var q := (a + d - 1) / d;
    assert a + d - 1 == d * q + (a + d - 1) % d;
    if q <= b {
      assert d * q <= d * b;
    } else {
      assert d * (b + 1) <= d * q;
    }
  }

  lemma AtMostQuotient(a: nat, d: nat, b: nat)
    requires d > 0
    ensures b <= a / d <==> b * d <= a
  {
    var q := a / d;
    assert a == d * q + a % d;
    if b <= q {
      assert d * b <= d * q;
    } else {
      assert d * (q + 1) <= d * b;
    }
  }

  // The buffer that is transformed: the windowed samples, and zeros behind them.
  ghost predicate IsBuffer<T(!new)>(R: Ring<T>, samples: seq<int>, windowed: (nat, int) -> T, n: nat, x: seq<T>) {
    && |samples| <= n && |x| == n
    && (forall i :: 0 <= i < |samples| ==> x[i] == windowed(i, samples[i]))
    && (forall i :: |samples| <= i < n ==> x[i] == R.zero)
  }

  function Padded<T(!new)>(R: Ring<T>, samples: seq<int>, windowed: (nat, int) -> T, n: nat): (x: seq<T>)
    requires |samples| <= n
    ensures IsBuffer(R, samples, windowed, n, x)
  {
    seq(n, i requires 0 <= i < n => if i < |samples| then windowed(i, samples[i]) else R.zero)
  }

  lemma OneBuffer<T(!new)>(R: Ring<T>, samples: seq<int>, windowed: (nat, int) -> T, n: nat, x: seq<T>, y: seq<T>)
    requires IsBuffer(R, samples, windowed, n, x) && IsBuffer(R, samples, windowed, n, y)
    ensures x == y
  {
    forall i | 0 <= i < n ensures x[i] == y[i] {
      if i < |samples| {
        assert x[i] == windowed(i, samples[i]);
      }
    }
  }

  // b is the first bin of largest energy from first to last.
  ghost predicate FirstLoudest<T(!new)>(f: seq<T>, energy: T -> real, first: nat, last: nat, b: nat)
    requires last < |f|
  {
    && first <= b <= last
    && (forall i :: first <= i <= last ==> energy(f[i]) <= energy(f[b]))
    && (forall i :: first <= i < b ==> energy(f[i]) < energy(f[b]))
  }

  method Loudest<T(!new)>(f: seq<T>, energy: T -> real, first: nat, last: nat) returns (best: nat)
    requires first <= last < |f|
    ensures FirstLoudest(f, energy, first, last, best)
  {
    best := first;
    for i := first + 1 to last + 1
      invariant FirstLoudest(f, energy, first, i - 1, best)
    {
      if energy(f[i]) > energy(f[best]) {
        best := i;
      }
    }
  }

  ghost predicate Silent(samples: seq<int>) {
    forall i :: 0 <= i < |samples| ==> samples[i] == 0
  }

  method IsSilent(samples: seq<int>) returns (silent: bool)
    ensures silent == Silent(samples)
  {
    silent := true;
    for i := 0 to |samples|
      invariant silent == Silent(samples[..i])
    {
      assert samples[..i + 1] == samples[..i] + [samples[i]];
      silent := silent && samples[i] == 0;
    }
    assert samples[..|samples|] == samples;
  }

  /** b is the first tonal bin of largest energy in the discrete Fourier transform of x. */
  ghost predicate IsPeak<T(!new)>(R: Ring<T>, x: seq<T>, w: T, energy: T -> real, sampleRate: nat, b: nat) {
    && Tonal(|x|, sampleRate, b)
    && (forall i: nat :: Tonal(|x|, sampleRate, i) ==> energy(Dft(R, x, w, i)) <= energy(Dft(R, x, w, b)))
    && (forall i: nat :: Tonal(|x|, sampleRate, i) && i < b ==> energy(Dft(R, x, w, i)) < energy(Dft(R, x, w, b)))
  }

  lemma LoudestIsPeak<T(!new)>(R: Ring<T>, x: seq<T>, w: T, f: seq<T>, energy: T -> real, sampleRate: nat, b: nat)
    requires sampleRate > 0 && |f| == |x| && LastBin(|x|, sampleRate) < |f|
    requires forall j :: 0 <= j < |f| ==> f[j] == Dft(R, x, w, j)
    requires FirstLoudest(f, energy, FirstBin(|x|, sampleRate), LastBin(|x|, sampleRate), b)
    ensures IsPeak(R, x, w, energy, sampleRate, b)
  {
    TonalIsBetween(|x|, sampleRate, b);
    forall i: nat | Tonal(|x|, sampleRate, i)
      ensures energy(Dft(R, x, w, i)) <= energy(Dft(R, x, w, b))
      ensures i < b ==> energy(Dft(R, x, w, i)) < energy(Dft(R, x, w, b))
    {
      TonalIsBetween(|x|, sampleRate, i);
      assert f[i] == Dft(R, x, w, i) && f[b] == Dft(R, x, w, b);
    }
  }

  /** The peak bin of a frame: the first bin of largest energy in the transform of the windowed,
      zero-padded frame, among the tonal bins; none exactly when the frame is silent or no bin is tonal.
      A frame longer than the buffer is an index error. */
  method PeakBin<T(!new)>(R: Ring<T>, root: nat -> T, k: nat, n: nat, samples: seq<int>, windowed: (nat, int) -> T,
                          energy: T -> real, sampleRate: nat)
    returns (peak: Peak)
    requires R.Lawful() && RootsOfUnity(R, root, k) && n == Pow2(k) && sampleRate > 0
    ensures peak.IndexError? <==> |samples| > n && !Silent(samples)
    ensures peak.Bin? <==> |samples| <= n && !Silent(samples) && exists b: nat :: Tonal(n, sampleRate, b)
    ensures peak.Bin? ==>
              forall x: seq<T> :: IsBuffer(R, samples, windowed, n, x) ==>
                                    IsPeak(R, x, root(k), energy, sampleRate, peak.index)
  {
    var silent := IsSilent(samples);
    if silent {
      return NoPeak;
    }
    if |samples| > n {
      return IndexError;
    }
    var x := Padded(R, samples, windowed, n);
    var values := new T[n](i requires 0 <= i < n => x[i]);
    assert values[..] == x;
    Transform(R, root, values, k);
    var first, last := FirstBin(n, sampleRate), LastBin(n, sampleRate);
    TonalIsBetween(n, sampleRate, first);
    if first > last {
      forall b: nat ensures !Tonal(n, sampleRate, b) {
        TonalIsBetween(n, sampleRate, b);
      }
      return NoPeak;
    }
    var best := Loudest(values[..], energy, first, last);
    LoudestIsPeak(R, x, root(k), values[..], energy, sampleRate, best);
    forall y: seq<T> | IsBuffer(R, samples, windowed, n, y) ensures y == x {
      OneBuffer(R, samples, windowed, n, x, y);
    }
    return Bin(best);
  }
}

/** The laws and the roots that the transform asks for exist at the size of its buffer: the integers
    modulo 7681 have a root of unity for each of the nine stages of 512 samples. */
module Residues {
  import opened Rings
  import opened Fft

  const M := 7681

  type Residue = a: int | 0 <= a < M

  function Add(a: Residue, b: Residue): Residue {
    if a + b < M then a + b else a + b - M
  }

  function Neg(a: Residue): Residue {
    if a == 0 then 0 else M - a
  }

  function Mul(a: Residue, b: Residue): Residue {
    a * b % M
  }

  function TheRing(): Ring<Residue> {
    Ring(0, 1, Add, Neg, Mul)
  }

  // Multiples of the modulus do not count.
  lemma Reduce(a: int, q: int)
    ensures (a + M * q) % M == a % M
  {
  }

  // Reducing a factor first does not change the product.
  lemma ReduceFactor(a: int, b: int)
    ensures (a % M) * b % M == a * b % M
  {
    var q := a / M;
    assert a == a % M + M * q;
    calc {
      a * b;
      (a % M + M * q) * b;
      (a % M) * b + M * q * b;
      { assert M * q * b == M * (q * b); }
      (a % M) * b + M * (q * b);
    }
    Reduce((a % M) * b, q * b);
  }

  lemma MulCommutes(a: Residue, b: Residue)
    ensures Mul(a, b) == Mul(b, a)
  {
    assert a * b == b * a;
  }

  lemma MulAssociates(a: Residue, b: Residue, c: Residue)
    ensures Mul(Mul(a, b), c) == Mul(a, Mul(b, c))
  {
    ReduceFactor(a * b, c);
    ReduceFactor(b * c, a);
    assert (b * c % M) * a == a * (b * c % M);
    assert a * b * c == b * c * a;
  }

  // Adding reduces like the remainder does.
  lemma AddReduces(a: int, b: int)
    ensures Add(a % M, b % M) == (a + b) % M
  {
  }

  lemma Distributes(a: Residue, b: Residue, c: Residue)
    ensures Mul(a, Add(b, c)) == Add(Mul(a, b), Mul(a, c))
  {
    AddReduces(b, c);
    AddReduces(a * b, a * c);
    hide Add;
    var d := b + c;
    calc {
      a * (d % M) % M;
      { assert a * (d % M) == (d % M) * a; }
      (d % M) * a % M;
      { ReduceFactor(d, a); }
      d * a % M;
      { assert d * a == a * b + a * c; }
      (a * b + a * c) % M;
    }
  }

  lemma Multiplies()
    ensures forall a, b :: TheRing().MulCommutes(a, b)
    ensures forall a, b, c :: TheRing().MulAssociates(a, b, c)
    ensures forall a, b, c :: TheRing().Distributes(a, b, c)
  {
    forall a, b ensures TheRing().MulCommutes(a, b) {
      MulCommutes(a, b);
    }
    forall a, b, c ensures TheRing().MulAssociates(a, b, c) {
      MulAssociates(a, b, c);
    }
    forall a, b, c ensures TheRing().Distributes(a, b, c) {
      Distributes(a, b, c);
    }
  }

  lemma Adds()
    ensures forall a, b :: TheRing().AddCommutes(a, b)
    ensures forall a, b, c :: TheRing().AddAssociates(a, b, c)
    ensures forall a :: TheRing().ZeroIsUnit(a) && TheRing().NegInverts(a) && TheRing().OneIsUnit(a)
  {
    forall a ensures TheRing().OneIsUnit(a) {
      assert Mul(a, 1) == a;
    }
  }

  // Root s of the table: each root is the square of the next, and the first is -1.
  function Root(s: nat): Residue {
    if 1 <= s <= 9 then [7680, 3383, 1925, 7098, 5235, 5413, 3449, 2028, 7146][s - 1] else 1
  }

  /** So a buffer of 512 samples can be transformed exactly. */
  lemma RootsFor512()
    ensures TheRing().Lawful()
    ensures RootsOfUnity(TheRing(), Root, 9)
  {
    Adds();
    Multiplies();
  }
}
