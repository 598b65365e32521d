/**
 * The helpers of function.c: an addition, two comparators with the C
 * `bool_t` convention (1 for true, 0 for false), and a demonstration that
 * a pointer argument is passed by value.
 */
module Functions {
  import opened CTypes

  function Abs(x: int): (n: int)
    ensures n >= 0 && (n == x || n == -x)
  {
    if x < 0 then -x else x
  }

  /** `sum`: signed overflow has no meaning in C, so the sum must fit in `int`. */
  function Sum(a: CInt, b: CInt): (r: CInt)
    requires InIntRange(a + b)
    ensures r - b == a && r - a == b
  {
    a + b
  }

  /** C's `/`: the quotient truncated toward zero (ISO C11 6.5.5p6). */
  function CQuot(a: int, m: int): int
    requires m != 0
  {
    if (a >= 0) == (m > 0) then Abs(a) / Abs(m) else -(Abs(a) / Abs(m))
  }

  /**
   * C's `%`: what is left after the truncating quotient, so it takes the
   * sign of `a` (-1 % 5 is -1), unlike Dafny's `%`, which is never negative.
   */
  function CRem(a: int, m: int): (r: int)
    requires m != 0
    ensures CQuot(a, m) * m + r == a
    ensures 0 <= a ==> 0 <= r < Abs(m)
    ensures a < 0 ==> -Abs(m) < r <= 0
  {
    var q, rr := Abs(a) / Abs(m), Abs(a) % Abs(m);
    MulSigns(q, Abs(m));
    if a >= 0 then rr else -rr
  }

  lemma MulSigns(x: int, y: int)
    ensures (-x) * y == -(x * y) && x * (-y) == -(x * y) && (-x) * (-y) == x * y
  {
  }

  /** Where the two remainders differ: exactly for negative non-multiples. */
  lemma CRemVersusEuclidean(a: int, m: int)
    requires m > 0
    ensures a >= 0 || a % m == 0 ==> CRem(a, m) == a % m
    ensures a < 0 && a % m != 0 ==> CRem(a, m) == a % m - m
  {
    var q, rr := Abs(a) / m, Abs(a) % m;
    assert q * m + rr == Abs(a);
    if a >= 0 {
      EuclideanUnique(a, m, q, rr);
    } else if rr == 0 {
      MulSigns(q, m);
      EuclideanUnique(a, m, -q, 0);
    } else {
      assert (-q - 1) * m == -(q * m) - m;
      EuclideanUnique(a, m, -q - 1, m - rr);
    }
  }

  /** Dafny's `%` is the only remainder in [0, m) that completes a division. */
  lemma EuclideanUnique(a: int, m: int, q: int, r: int)
    requires m > 0 && 0 <= r < m && q * m + r == a
    ensures a % m == r && a / m == q
  {
    var q', r' := a / m, a % m;
    assert q' * m + r' == a;
    var d := q - q';
    assert d * m == r' - r by {
      assert d * m == q * m - q' * m;
    }
    if d >= 1 {
      AtLeastOnce(d, m);
    } else if d <= -1 {
      AtLeastOnce(-d, m);
      MulSigns(d, m);
    }
  }

  lemma AtLeastOnce(d: int, m: int)
    requires d >= 1 && m > 0
    ensures d * m >= m
  {
  }

  /** `less_than`: 1 exactly when a < b. */
  function LessThan(a: CInt, b: CInt): (r: int)
    ensures r == 0 || r == 1
    ensures r == 1 <==> a < b
  {
    if a < b then 1 else 0
  }

  /** `less_than_modular`: 1 exactly when a % 5 < b % 5 with C's remainder. */
  function LessThanModular(a: CInt, b: CInt): (r: int)
    ensures r == 0 || r == 1
    ensures r == 1 <==> CRem(a, 5) < CRem(b, 5)
  {
    if CRem(a, 5) < CRem(b, 5) then 1 else 0
  }

  /** Both comparators are strict orders: irreflexive, asymmetric and transitive. */
  lemma ComparatorsAreStrict(a: CInt, b: CInt, c: CInt)
    ensures LessThan(a, a) == 0 && LessThanModular(a, a) == 0
    ensures LessThan(a, b) == 1 ==> LessThan(b, a) == 0
    ensures LessThanModular(a, b) == 1 ==> LessThanModular(b, a) == 0
    ensures LessThan(a, b) == 1 && LessThan(b, c) == 1 ==> LessThan(a, c) == 1
    ensures LessThanModular(a, b) == 1 && LessThanModular(b, c) == 1 ==> LessThanModular(a, c) == 1
  {
  }

  /**
   * The remainder keeps the sign: -1 comes before 0 although -1 and 4 are
   * the same residue, and 4 does not come before -1.
   */
  lemma LessThanModularNegative()
    ensures CRem(-1, 5) == -1
    ensures LessThanModular(-1, 0) == 1
    ensures LessThanModular(4, -1) == 0 && LessThanModular(-1, 4) == 1
  {
  }

  /** An `int` object in memory, the target of an `int*`. */
  class IntCell {
    var value: int

    constructor (value: int)
      ensures this.value == value
    {
      this.value := value;
    }
  }

  /**
   * `func`: writes 5 through the pointer, then points its own copy of the
   * pointer at a local. Parameters are copies, so the caller's pointer is
   * not affected.
   */
  method Func(a: IntCell)
    modifies a
    ensures a.value == 5
  {
    var p := a;
    var b := new IntCell(9);
    p.value := 5;
    p := b;
  }

  /** The demonstration in `main`: 3 before, 5 after, the same pointer. */
  method FuncDemo() returns (before: int, after: int, samePointer: bool, sum: int)
    ensures before == 3 && after == 5 && samePointer
    ensures sum == 9
  {
    var x := new IntCell(3);
    var xptr := x;
    before := x.value;
    Func(xptr);
    after := x.value;
    samePointer := xptr == x;
    sum := Sum(5, 4);
  }
}
