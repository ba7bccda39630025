/**
 * ch04/prime.c: the search for the n-th prime. That its endless-looking loop ends is
 * Euclid's theorem; the measure is the distance to a prime at most 2^(2^(n-1)).
 */
module Prime {

  predicate Divides(d: nat, c: nat)
    requires d > 0
  {
    c % d == 0
  }

  ghost predicate IsPrime(c: int)
  {
    c >= 2 && forall d | 2 <= d < c :: !Divides(d, c)
  }

  /** How many primes are at most `m`. */
  ghost function PrimeCount(m: int): nat
  {
    if m < 2 then 0 else PrimeCount(m - 1) + if IsPrime(m) then 1 else 0
  }

  /** The product of the primes up to `m`. */
  ghost function Primorial(m: int): nat
    ensures Primorial(m) >= 1
  {
    if m < 2 then 1 else if IsPrime(m) then m * Primorial(m - 1) else Primorial(m - 1)
  }

  function Pow2(n: nat): nat
    ensures Pow2(n) >= 1
  {
    if n == 0 then 1 else 2 * Pow2(n - 1)
  }

  // ---------------------------------------------------------------- divisors

  lemma Quotient(d: nat, c: nat) returns (q: nat)
    requires d > 0 && Divides(d, c)
    ensures c == d * q
  {
    q := c / d;
  }

  lemma MultipleDivides(d: nat, q: nat)
    requires d > 0
    ensures Divides(d, d * q)
  {
    var r := (d * q) % d;
    var k := (d * q) / d;
    assert d * q == d * k + r;
    SmallMultiple(d, q - k, r);
  }

  lemma SmallMultiple(d: int, k: int, r: int)
    requires d * k == r && -d < r < d
    ensures k == 0 && r == 0
  {}

  lemma NoConsecutiveMultiples(p: nat, x: nat)
    requires p >= 2 && Divides(p, x)
    ensures !Divides(p, x + 1)
  {
    if Divides(p, x + 1) {
      var a := Quotient(p, x);
      var b := Quotient(p, x + 1);
      SmallMultiple(p, b - a, 1);
    }
  }

  lemma DividesTransitive(a: nat, b: nat, c: nat)
    requires a > 0 && b > 0 && Divides(a, b) && Divides(b, c)
    ensures Divides(a, c)
  {
    var p := Quotient(a, b);
    var q := Quotient(b, c);
    assert c == a * (p * q);
    MultipleDivides(a, p * q);
  }

  /** The least divisor above 1 is prime. */
  lemma LeastDivisorIsPrime(f: int, c: int)
    requires 2 <= f <= c && Divides(f, c)
    requires forall d | 2 <= d < f :: !Divides(d, c)
    ensures IsPrime(f)
  {
    forall d | 2 <= d < f ensures !Divides(d, f) {
      if Divides(d, f) {
        DividesTransitive(d, f, c);
      }
    }
  }

  lemma PrimeFactor(c: int, from: int) returns (p: int)
    requires 2 <= from <= c && forall d | 2 <= d < from :: !Divides(d, c)
    ensures IsPrime(p) && p <= c && Divides(p, c)
    decreases c - from
  {
    if Divides(from, c) {
      LeastDivisorIsPrime(from, c);
      p := from;
    } else {
      assert from < c by {
        MultipleDivides(c, 1);
      }
      p := PrimeFactor(c, from + 1);
    }
  }

  lemma DividesProduct(d: nat, a: nat, b: nat)
    requires d > 0 && Divides(d, a)
    ensures Divides(d, b * a)
  {
    var q := Quotient(d, a);
    assert b * a == d * (q * b);
    MultipleDivides(d, q * b);
  }

  lemma {:induction false} PrimeDividesPrimorial(p: int, m: int)
    requires IsPrime(p) && p <= m
    ensures Divides(p, Primorial(m))
    decreases m
  {
    if p == m {
      MultipleDivides(p, Primorial(m - 1));
    } else {
      PrimeDividesPrimorial(p, m - 1);
      if IsPrime(m) {
        DividesProduct(p, Primorial(m - 1), m);
      }
    }
  }

  /** Euclid: some prime above `m` is at most the product of the primes up to `m`, plus one. */
  lemma PrimeAbove(m: int) returns (p: int)
    requires m >= 1
    ensures IsPrime(p) && m < p <= Primorial(m) + 1
  {
    p := PrimeFactor(Primorial(m) + 1, 2);
    if p <= m {
      PrimeDividesPrimorial(p, m);
      NoConsecutiveMultiples(p, Primorial(m));
      assert false;
    }
  }

  // ---------------------------------------------------------------- Euclid's bound

  lemma {:induction false} CountMonotone(a: int, b: int)
    requires a <= b
    ensures PrimeCount(a) <= PrimeCount(b)
    decreases b - a
  {
    if a < b {
      CountMonotone(a, b - 1);
    }
  }

  /** The first prime after `m`: no prime lies between. */
  lemma NextPrime(m: int, p: int) returns (q: int)
    requires m >= 1 && m < p && IsPrime(p)
    ensures IsPrime(q) && m < q <= p && PrimeCount(q) == PrimeCount(m) + 1 && Primorial(q) == q * Primorial(m)
    decreases p - m
  {
    if IsPrime(m + 1) {
      q := m + 1;
    } else {
      q := NextPrime(m + 1, p);
    }
  }

  lemma Pow2Sum(a: nat, b: nat)
    ensures Pow2(a + b) == Pow2(a) * Pow2(b)
  {
    if a > 0 {
      Pow2Sum(a - 1, b);
    }
  }

  lemma MulMonotone(a: nat, b: nat, c: nat, d: nat)
    requires a <= c && b <= d
    ensures a * b <= c * d
  {
    assert a * b <= c * b;
    assert c * b <= c * d;
  }

  /** The k-th prime is at most 2^(2^(k-1)), because the product of the first k is at most 2^(2^k - 1). */
  lemma EuclidBound(k: nat) returns (p: int)
    ensures p >= 1 && PrimeCount(p) == k && Primorial(p) <= Pow2(Pow2(k) - 1)
    ensures k > 0 ==> IsPrime(p) && p <= Pow2(Pow2(k - 1))
  {
    if k == 0 {
      p := 1;
    } else {
      var before := EuclidBound(k - 1);
      var above := PrimeAbove(before);
      p := NextPrime(before, above);
      var e := Pow2(k - 1);
      assert Pow2(e) == 2 * Pow2(e - 1);
      Pow2Sum(e, e - 1);
      MulMonotone(p, Primorial(before), Pow2(e), Pow2(e - 1));
    }
  }

  ghost function PrimesUpTo(m: int): set<int> { set p | 2 <= p <= m && IsPrime(p) }

  /** PrimeCount counts: it is the size of the set of primes. */
  lemma {:induction false} CountIsCardinality(m: int)
    ensures |PrimesUpTo(m)| == PrimeCount(m)
    decreases m
  {
    if m < 2 {
      assert PrimesUpTo(m) == {};
    } else {
      CountIsCardinality(m - 1);
      assert PrimesUpTo(m) == PrimesUpTo(m - 1) + if IsPrime(m) then {m} else {};
    }
  }

  /** There is only one n-th prime. */
  lemma {:induction false} NthPrimeUnique(p: int, q: int)
    requires IsPrime(p) && IsPrime(q) && PrimeCount(p) == PrimeCount(q)
    ensures p == q
  {
    if p < q {
      CountMonotone(p, q - 1);
    } else if q < p {
      CountMonotone(q, p - 1);
    }
  }

  /** A prime is within a limit exactly when its place among the primes is. */
  lemma {:induction false} CountReaches(p: int)
    requires IsPrime(p)
    ensures forall limit :: p <= limit <==> PrimeCount(p) <= PrimeCount(limit)
  {
    forall limit ensures p <= limit <==> PrimeCount(p) <= PrimeCount(limit) {
      if p <= limit {
        CountMonotone(p, limit);
      } else {
        CountMonotone(limit, p - 1);
      }
    }
  }

  // ---------------------------------------------------------------- the program

  /**
   * Lines 16-21: trial division. It clears is_prime exactly for composites, stopping at the
   * least divisor above 1, a prime; for a prime, factor runs up to the candidate itself.
   */
  method TestCandidate(candidate: int) returns (isPrime: bool, factor: int)
    requires candidate >= 2
    ensures isPrime <==> IsPrime(candidate)
    ensures isPrime ==> factor == candidate
    ensures !isPrime ==> 2 <= factor < candidate && IsPrime(factor) && Divides(factor, candidate)
    ensures !isPrime ==> forall d | 2 <= d < factor :: !Divides(d, candidate)
  {
    isPrime := true;
    factor := 2;
    while factor < candidate
      invariant 2 <= factor <= candidate
      invariant forall d | 2 <= d < factor :: !Divides(d, candidate)
    {
      if candidate % factor == 0 {
        isPrime := false;
        assert Divides(factor, candidate);
        LeastDivisorIsPrime(factor, candidate);
        return;
      }
      assert !Divides(factor, candidate);
      factor := factor + 1;
    }
  }

  /**
   * Lines 7-33, for n >= 1: terminates with the n-th prime. `peak` is the largest value that
   * the C `int factor` ever holds; it stays within a limit exactly when there are that many
   * primes up to it, so it overflows for n above PrimeCount(INT_MAX) and no other n.
   */
  method ComputePrime(which: int) returns (candidate: int, ghost peak: int)
    requires which >= 1
    ensures IsPrime(candidate) && |PrimesUpTo(candidate)| == which
    ensures candidate <= Pow2(Pow2(which - 1))
    ensures peak == candidate
    ensures forall limit :: peak <= limit <==> which <= PrimeCount(limit)
  {
    candidate := 2;
    peak := 2;
    var n := which;
    ghost var goal := EuclidBound(which);
    CountMonotone(candidate - 1, goal);
    while true
      invariant 2 <= candidate && 1 <= n && PrimeCount(candidate - 1) + n == which
      invariant candidate <= goal && 2 <= peak <= candidate
      decreases goal - candidate
    {
      var isPrime, factor := TestCandidate(candidate);
      peak := if factor > peak then factor else peak;
      if isPrime {
        n := n - 1;
        if n == 0 {
          NthPrimeUnique(candidate, goal);
          CountIsCardinality(candidate);
          CountReaches(candidate);
          return;
        }
      }
      candidate := candidate + 1;
    }
  }
}
