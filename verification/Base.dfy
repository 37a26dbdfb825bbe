/** Shared vocabulary: optionals, bytes, machine integers, powers of two and aligned blocks. */
module Base {
  datatype Option<+T> = None | Some(value: T)

  datatype Result<+T, +E> = Success(value: T) | Failure(error: E) {
    predicate IsFailure() { Failure? }

    function PropagateFailure<U>(): Result<U, E>
      requires Failure?
    {
      Failure(error)
    }

    function Extract(): T
      requires Success?
    {
      value
    }
  }

  newtype Byte = x: int | 0 <= x < 0x100
  type Bytes = seq<Byte>

  newtype uint32 = x: int | 0 <= x < 0x1_0000_0000
  type int32 = x: int | -0x8000_0000 <= x < 0x8000_0000

  function Min(x: int, y: int): int { if x < y then x else y }
  function Max(x: int, y: int): int { if x < y then y else x }

  // ---------------------------------------------------------------- powers of two

  function Pow2(e: nat): (r: nat)
    ensures r >= 1
  {
    if e == 0 then 1 else 2 * Pow2(e - 1)
  }

  lemma {:induction false} Pow2Monotone(d: nat, e: nat)
    requires d <= e
    ensures Pow2(d) <= Pow2(e)
    decreases e - d
  {
    if d < e { Pow2Monotone(d, e - 1); }
  }

  lemma {:induction false} Pow2Exceeds(e: nat)
    ensures Pow2(e) > e
  {
    if e > 0 { Pow2Exceeds(e - 1); }
  }

  /** The least e with Pow2(e) >= n: see LgCeilLeast. */
  function LgCeil(n: nat): (e: nat)
    ensures Pow2(e) >= n
  {
    LgCeilFrom(n, 0)
  }

  function LgCeilFrom(n: nat, e: nat): (r: nat)
    ensures r >= e && Pow2(r) >= n
    decreases n - e
  {
    Pow2Exceeds(e);
    if Pow2(e) >= n then e else LgCeilFrom(n, e + 1)
  }

  lemma {:induction false} LgCeilFromLeast(n: nat, e: nat, d: nat)
    requires e <= d < LgCeilFrom(n, e)
    ensures Pow2(d) < n
    decreases n - e
  {
    Pow2Exceeds(e);
    if e < d { LgCeilFromLeast(n, e + 1, d); }
  }

  lemma LgCeilLeast(n: nat, d: nat)
    ensures d < LgCeil(n) <==> Pow2(d) < n
  {
    if d < LgCeil(n) {
      LgCeilFromLeast(n, 0, d);
    } else {
      Pow2Monotone(LgCeil(n), d);
    }
  }

  /** The greatest e with Pow2(e) <= n, for n >= 1. */
  function LgFloor(n: nat): (e: nat)
    requires n >= 1
    ensures Pow2(e) <= n < Pow2(e + 1)
  {
    LgCeilLeast(n + 1, 0);
    var c := LgCeil(n + 1);
    LgCeilLeast(n + 1, c - 1);
    c - 1
  }

  // ---------------------------------------------------------------- blocks aligned at multiples

  /** The remainder i % m, by repeated subtraction: this keeps every proof about it linear. */
  function Rem(i: nat, m: nat): (r: nat)
    requires m > 0
    ensures r < m && r <= i
  {
    if i < m then i else Rem(i - m, m)
  }

  lemma MulMonotone(p: int, q: int, m: nat)
    requires p <= q
    ensures p * m <= q * m
  {
    assert (q - p) * m >= 0;
  }

  lemma DivModUnique(x: int, m: int, q: int, r: int)
    requires m > 0 && 0 <= r < m && x == q * m + r
    ensures x / m == q && x % m == r
  {
    var q' := x / m;
    assert x == q' * m + x % m;
    if q' > q {
      MulMonotone(q + 1, q', m);
    } else if q' < q {
      MulMonotone(q' + 1, q, m);
    }
  }

  lemma {:induction false} RemIsRemainder(i: nat, m: nat)
    requires m > 0
    ensures Rem(i, m) == i % m
    decreases i
  {
    if i >= m {
      RemIsRemainder(i - m, m);
      var q, r := (i - m) / m, (i - m) % m;
      assert i - m == q * m + r;
      DivModUnique(i, m, q + 1, r);
    }
  }

  /** Inside a block that starts at a multiple of m, the remainder is the offset. */
  lemma {:induction false} BlockOffset(g: nat, k: nat, m: nat)
    requires m > 0 && Rem(g, m) == 0 && k < m
    ensures Rem(g + k, m) == k
    decreases g
  {
    if g >= m { BlockOffset(g - m, k, m); }
  }

  lemma {:induction false} BlockStart(i: nat, m: nat)
    requires m > 0
    ensures Rem(i - Rem(i, m), m) == 0
    decreases i
  {
    if i >= m { BlockStart(i - m, m); }
  }

  lemma {:induction false} AlignedSum(g: nat, k: nat, m: nat)
    requires m > 0 && Rem(g, m) == 0 && Rem(k, m) == 0
    ensures Rem(g + k, m) == 0
    decreases g
  {
    if g >= m { AlignedSum(g - m, k, m); }
  }

  /** The m-block around a position of an m-aligned range stays inside that range. */
  lemma {:induction false} BlockInside(i: nat, m: nat, g: nat, size: nat)
    requires m > 0 && Rem(g, m) == 0 && Rem(size, m) == 0 && g <= i < g + size
    ensures g <= i - Rem(i, m) && i - Rem(i, m) + m <= g + size
    decreases i
  {
    if g >= m {
      BlockInside(i - m, m, g - m, size);
    } else if i >= m {
      BlockInside(i - m, m, g, size - m);
    }
  }

  lemma {:induction false} Pow2Divides(d: nat, e: nat)
    requires d <= e
    ensures Rem(Pow2(e), Pow2(d)) == 0
    decreases e - d
  {
    if d < e {
      Pow2Divides(d, e - 1);
      AlignedSum(Pow2(e - 1), Pow2(e - 1), Pow2(d));
    }
  }

  /** A multiple of 2^e is a multiple of every smaller power. */
  lemma {:induction false} AlignedCoarser(g: nat, d: nat, e: nat)
    requires d <= e && Rem(g, Pow2(e)) == 0
    ensures Rem(g, Pow2(d)) == 0
    decreases g
  {
    if g >= Pow2(e) {
      AlignedCoarser(g - Pow2(e), d, e);
      Pow2Divides(d, e);
      AlignedSum(g - Pow2(e), Pow2(e), Pow2(d));
    }
  }

  // ---------------------------------------------------------------- distinct sequences

  ghost predicate Distinct<T>(s: seq<T>) {
    forall i, j :: 0 <= i < j < |s| ==> s[i] != s[j]
  }

  lemma {:induction false} DistinctCard<T>(s: seq<T>)
    requires Distinct(s)
    ensures |(set x | x in s)| == |s|
  {
    if s == [] {
      assert (set x | x in s) == {};
    } else {
      var t, x := s[..|s| - 1], s[|s| - 1];
      DistinctCard(t);
      assert s == t + [x];
      assert (set y | y in s) == (set y | y in t) + {x};
    }
  }

  function Below(n: nat): (r: set<nat>)
    ensures |r| == n && forall x: nat :: x in r <==> x < n
  {
    if n == 0 then {} else Below(n - 1) + {n - 1}
  }

  lemma SubsetCard<T>(s: set<T>, t: set<T>)
    requires s <= t
    ensures |s| <= |t|
  {
    assert t == s + (t - s);
  }

  /** Distinct numbers below n: there are at most n of them, and with fewer than n one is missing. */
  lemma Pigeonhole(s: seq<nat>, n: nat)
    requires Distinct(s) && forall k :: 0 <= k < |s| ==> s[k] < n
    ensures |s| <= n
    ensures |s| < n ==> exists j: nat :: j < n && j !in s
  {
    var used := set x | x in s;
    DistinctCard(s);
    SubsetCard(used, Below(n));
    if |s| < n {
      if Below(n) <= used { SubsetCard(Below(n), used); }
      var j :| j in Below(n) && j !in used;
    }
  }
}
