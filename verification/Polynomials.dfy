/** Polynomials over GF(2), as sets of exponents, and division by one of degree 32. */
module Polynomials {

  type Poly = set<nat>

  /** Coefficients are added modulo 2. */
  function Add(p: Poly, q: Poly): Poly { (p - q) + (q - p) }

  /** Multiplication by the `n`-th power of x. */
  function Shift(p: Poly, n: nat): Poly { set k | k in p :: k + n }

  /** The polynomial whose coefficients are `s`, highest first. */
  function FromBits(s: seq<bool>): Poly {
    set j: nat | j < |s| && Coefficient(s, j)
  }

  predicate Coefficient(s: seq<bool>, j: nat)
    requires j < |s|
  {
    s[|s| - 1 - j]
  }

  const DEGREE := 32

  ghost predicate Divisor(g: Poly) {
    DEGREE in g && forall k | k in g :: k <= DEGREE
  }

  /** The product of `g` and the polynomial whose coefficients are `q`, highest first. */
  function Multiple(g: Poly, q: seq<bool>): Poly {
    if q == [] then {}
    else Add(Shift(Multiple(g, q[..|q| - 1]), 1), if q[|q| - 1] then g else {})
  }

  ghost predicate IsRemainder(p: Poly, g: Poly, r: Poly) {
    && (forall k | k in r :: k < DEGREE)
    && exists q: seq<bool> :: p == Add(Multiple(g, q), r)
  }

  /** The remainder after one more coefficient. */
  function NextRemainder(g: Poly, r: Poly, b: bool): Poly {
    Add(Shift(r - {DEGREE - 1}, 1), if (DEGREE - 1 in r) != b then g - {DEGREE} else {})
  }

  lemma ShiftIn(p: Poly, n: nat)
    ensures forall k: nat :: k in Shift(p, n) <==> k >= n && k - n in p
  {
    forall k: nat
      ensures k in Shift(p, n) <==> k >= n && k - n in p
    {
      if k >= n && k - n in p {
        assert (k - n) + n == k;
      }
    }
  }

  lemma ShiftAdd(p: Poly, q: Poly, n: nat)
    ensures Shift(Add(p, q), n) == Add(Shift(p, n), Shift(q, n))
  {
    forall k
      ensures k in Shift(Add(p, q), n) <==> k in Add(Shift(p, n), Shift(q, n))
    {
      assert k in Shift(p, n) <==> k >= n && k - n in p;
      assert k in Shift(q, n) <==> k >= n && k - n in q;
    }
  }

  lemma ShiftShift(p: Poly, m: nat, n: nat)
    ensures Shift(Shift(p, m), n) == Shift(p, m + n)
  {
    ShiftIn(p, m);
    ShiftIn(Shift(p, m), n);
    ShiftIn(p, m + n);
  }

  /** What does not fit below the degree cancels against the leading term of `g`. */
  lemma Cancel(m: Poly, low: Poly, g: Poly, high: bool, b: bool)
    requires Divisor(g) && DEGREE !in low
    ensures Add(Add(m, Add(low, if high then {DEGREE} else {})), if b then {DEGREE} else {}) ==
            Add(Add(m, if high != b then g else {}), Add(low, if high != b then g - {DEGREE} else {}))
  {
  }

  lemma SplitTop(r: Poly)
    requires forall k | k in r :: k < DEGREE
    ensures var low := Shift(r - {DEGREE - 1}, 1);
            && Shift(r, 1) == Add(low, if DEGREE - 1 in r then {DEGREE} else {})
            && forall k | k in low :: k < DEGREE
  {
    ShiftIn(r, 1);
    ShiftIn(r - {DEGREE - 1}, 1);
  }

  lemma {:induction false} RemainderStep(p: Poly, g: Poly, r: Poly, b: bool)
    requires Divisor(g) && IsRemainder(p, g, r)
    ensures IsRemainder(Add(Shift(p, 1), if b then {DEGREE} else {}), g, NextRemainder(g, r, b))
  {
    var q: seq<bool> :| p == Add(Multiple(g, q), r);
    var high, low := DEGREE - 1 in r, Shift(r - {DEGREE - 1}, 1);
    var q2 := q + [high != b];
    assert q2[..|q|] == q;
    ShiftAdd(Multiple(g, q), r, 1);
    SplitTop(r);
    Cancel(Shift(Multiple(g, q), 1), low, g, high, b);
    assert Add(Shift(p, 1), if b then {DEGREE} else {}) == Add(Multiple(g, q2), NextRemainder(g, r, b));
  }

  /** A non-zero multiple of `g` has at least its degree. */
  lemma {:induction false} MultipleDegree(g: Poly, q: seq<bool>)
    requires Divisor(g) && q != [] && q[0]
    ensures DEGREE + |q| - 1 in Multiple(g, q)
    ensures forall k | k in Multiple(g, q) :: k < DEGREE + |q|
  {
    var n := |q| - 1;
    ShiftIn(Multiple(g, q[..n]), 1);
    if n > 0 {
      MultipleDegree(g, q[..n]);
    }
  }

  lemma {:induction false} MultipleTrim(g: Poly, q: seq<bool>)
    requires q != [] && !q[0]
    ensures Multiple(g, q) == Multiple(g, q[1..])
  {
    var n := |q| - 1;
    if n > 0 {
      assert q[1..][..n - 1] == q[..n][1..];
      MultipleTrim(g, q[..n]);
    } else {
      assert q[1..] == [] && q[..n] == [];
    }
  }

  function Sum(q: seq<bool>, t: seq<bool>): seq<bool>
    requires |q| == |t|
  {
    seq(|q|, i requires 0 <= i < |q| => q[i] != t[i])
  }

  lemma {:induction false} MultipleSum(g: Poly, q: seq<bool>, t: seq<bool>)
    requires |q| == |t|
    ensures Add(Multiple(g, q), Multiple(g, t)) == Multiple(g, Sum(q, t))
  {
    if q != [] {
      var n := |q| - 1;
      assert Sum(q, t)[..n] == Sum(q[..n], t[..n]);
      MultipleSum(g, q[..n], t[..n]);
      ShiftAdd(Multiple(g, q[..n]), Multiple(g, t[..n]), 1);
    }
  }

  /** A multiple of `g` below its degree is zero. */
  lemma {:induction false} SmallMultiple(g: Poly, q: seq<bool>)
    requires Divisor(g) && forall k | k in Multiple(g, q) :: k < DEGREE
    ensures Multiple(g, q) == {}
  {
    if q != [] {
      if q[0] {
        MultipleDegree(g, q);
        assert false;
      } else {
        MultipleTrim(g, q);
        SmallMultiple(g, q[1..]);
      }
    }
  }

  /** Leading zeros do not matter. */
  lemma {:induction false} Pad(g: Poly, q: seq<bool>, n: nat) returns (t: seq<bool>)
    requires |q| <= n
    ensures |t| == n && Multiple(g, t) == Multiple(g, q)
  {
    if |q| == n {
      t := q;
    } else {
      var s := Pad(g, q, n - 1);
      t := [false] + s;
      MultipleTrim(g, t);
      assert t[1..] == s;
    }
  }

  /** There is only one remainder. */
  lemma {:induction false} RemainderUnique(p: Poly, g: Poly, r: Poly, s: Poly)
    requires Divisor(g) && IsRemainder(p, g, r) && IsRemainder(p, g, s)
    ensures r == s
  {
    var q: seq<bool> :| p == Add(Multiple(g, q), r);
    var t: seq<bool> :| p == Add(Multiple(g, t), s);
    var n := if |q| < |t| then |t| else |q|;
    var q2 := Pad(g, q, n);
    var t2 := Pad(g, t, n);
    MultipleSum(g, q2, t2);
    var d := Multiple(g, Sum(q2, t2));
    assert d == Add(Multiple(g, q), Multiple(g, t));
    SameSum(Multiple(g, q), r, Multiple(g, t), s);
    assert forall k | k in d :: k < DEGREE;
    SmallMultiple(g, Sum(q2, t2));
    assert Add(r, s) == {};
    forall k
      ensures k in r <==> k in s
    {
      assert k !in Add(r, s);
    }
  }

  lemma SameSum(a: Poly, r: Poly, b: Poly, s: Poly)
    requires Add(a, r) == Add(b, s)
    ensures Add(a, b) == Add(r, s)
  {
    forall k
      ensures k in Add(a, b) <==> k in Add(r, s)
    {
      assert k in Add(a, r) <==> k in Add(b, s);
    }
  }

  lemma BitsSnoc(s: seq<bool>, b: bool)
    ensures FromBits(s + [b]) == Add(Shift(FromBits(s), 1), if b then {0} else {})
  {
    ShiftIn(FromBits(s), 1);
    forall j: nat
      ensures j in FromBits(s + [b]) <==> j in Add(Shift(FromBits(s), 1), if b then {0} else {})
    {
      assert 0 < j <= |s| ==> Coefficient(s + [b], j) == Coefficient(s, j - 1);
    }
  }
}
