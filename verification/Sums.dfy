/** Finite sums over sequences, used to count threads and jobs. */
module Sums {

  function Sum<T>(s: seq<T>, f: T -> int): int
  {
    if s == [] then 0 else f(s[0]) + Sum(s[1..], f)
  }

  /** Replacing one element changes the sum by that element's difference. */
  lemma SumUpdate<T>(s: seq<T>, i: nat, x: T, f: T -> int)
    requires i < |s|
    ensures Sum(s[i := x], f) == Sum(s, f) - f(s[i]) + f(x)
  {
    if i == 0 {
      assert s[i := x][1..] == s[1..];
    } else {
      assert s[i := x][1..] == s[1..][i - 1 := x];
      SumUpdate(s[1..], i - 1, x, f);
    }
  }

  lemma {:induction false} SumConcat<T>(a: seq<T>, b: seq<T>, f: T -> int)
    ensures Sum(a + b, f) == Sum(a, f) + Sum(b, f)
  {
    if a == [] {
      assert a + b == b;
    } else {
      assert (a + b)[1..] == a[1..] + b;
      SumConcat(a[1..], b, f);
    }
  }

  /** A sum of non-negative terms is at least each of its terms. */
  lemma {:induction false} SumAtLeast<T>(s: seq<T>, f: T -> int)
    requires forall k | 0 <= k < |s| :: f(s[k]) >= 0
    ensures Sum(s, f) >= 0
    ensures forall k | 0 <= k < |s| :: Sum(s, f) >= f(s[k])
  {
    if s != [] {
      forall k | 0 <= k < |s[1..]| ensures f(s[1..][k]) >= 0 {
        assert s[1..][k] == s[k + 1];
      }
      SumAtLeast(s[1..], f);
      forall k | 0 <= k < |s| ensures Sum(s, f) >= f(s[k]) {
        if k > 0 {
          assert s[1..][k - 1] == s[k];
        }
      }
    }
  }

  /** A sum of equal terms is their product with the length. */
  lemma {:induction false} SumConstant<T>(s: seq<T>, f: T -> int, c: int)
    requires forall k | 0 <= k < |s| :: f(s[k]) == c
    ensures Sum(s, f) == c * |s|
  {
    if s != [] {
      forall k | 0 <= k < |s[1..]| ensures f(s[1..][k]) == c {
        assert s[1..][k] == s[k + 1];
      }
      SumConstant(s[1..], f, c);
      assert c * |s| == c + c * (|s| - 1);
    }
  }
}
