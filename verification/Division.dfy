/**
 Division of int64 operands (`pkg/lang/numberops.go`): a Euclidean loop on truncated remainders,
 whose result carries a sign, and the reduction to an integer or to a ratio.
 */
module Division {
  import opened Int64
  import NumberOps
  import Words

  ghost predicate Divides(d: int, n: int) { exists q :: Multiple(d, q, n) }

  predicate Multiple(d: int, q: int, n: int) { n == d * q }

  // ---- gcd ----

  function Gcd(u: int64, v: int64): int64
    decreases Abs(v)
  {
    if v == 0 then u else Gcd(v, GoRem(u, v))
  }

  method GcdLoop(u: int64, v: int64) returns (g: int64)
    ensures g == Gcd(u, v)
  {
    var a, b := u, v;
    while b != 0
      invariant Gcd(a, b) == Gcd(u, v)
      decreases Abs(b)
    {
      var r := GoRem(a, b);
      a := b;
      b := r;
    }
    g := a;
  }

  /** The result divides both numbers, and every common divisor divides it. */
  lemma {:induction false} GcdIsGreatest(u: int64, v: int64, d: int)
    ensures Divides(Gcd(u, v), u) && Divides(Gcd(u, v), v)
    ensures Divides(d, u) && Divides(d, v) ==> Divides(d, Gcd(u, v))
    ensures Gcd(u, v) == 0 <==> u == 0 && v == 0
    decreases Abs(v)
  {
    hide Quo, Divides;
    if v == 0 {
      DividesItself(u);
    } else {
      var q, r := Quo(u, v), GoRem(u, v);
      Flip(q, v);
      assert r == u + v * -q && u == r + v * q;
      GcdIsGreatest(v, r, d);
      if Divides(d, u) && Divides(d, v) { DividesSum(d, u, v, -q); }
      DividesSum(Gcd(v, r), r, v, q);
    }
  }

  lemma DividesItself(u: int)
    ensures Divides(u, u) && Divides(u, 0)
  {
    assert Multiple(u, 1, u) && Multiple(u, 0, 0);
  }

  lemma DividesSum(d: int, m: int, n: int, k: int)
    requires Divides(d, m) && Divides(d, n)
    ensures Divides(d, m + n * k)
  {
    var p :| Multiple(d, p, m);
    var q :| Multiple(d, q, n);
    assert Multiple(d, p + q * k, m + n * k) by { Distribute(d, p, q, k); }
  }

  lemma Distribute(d: int, p: int, q: int, k: int)
    ensures d * p + d * q * k == d * (p + q * k)
  {}

  /** The remainder keeps the dividend's sign, so a divisor comes back with its own sign. */
  lemma GcdOfMultiple(u: int64, v: int64)
    requires v != 0
    ensures Gcd(u, v) == v <==> Divides(v, u)
    ensures Divides(v, u) ==> GoRem(u, v) == 0
  {
    GcdIsGreatest(u, v, v);
    if Divides(v, u) {
      var q :| Multiple(v, q, u);
      NumberOps.ExactQuo(q, v);
    }
  }

  lemma {:induction false} GcdOfNegatives(u: int64, v: int64)
    requires u <= 0 && v <= 0
    ensures Gcd(u, v) <= 0
    decreases Abs(v)
  {
    if v != 0 { GcdOfNegatives(v, GoRem(u, v)); }
  }

  // ---- Divide ----

  /** What `big.NewRat` is given after it has moved the sign to the numerator; it also panics on a zero denominator. */
  datatype Quotient = Whole(n: int64) | Ratio(num: int, den: int) | DivideByZero

  function NewRatio(n: int64, d: int64): Quotient {
    if d == 0 then DivideByZero else if d < 0 then Ratio(-(n as int), -(d as int)) else Ratio(n, d)
  }

  function Negate(x: int64): int64 { Wrap(-(x as int)) }

  function Divide(x: int64, y: int64): Quotient {
    var g := Gcd(x, y);
    if g == 0 then Whole(0)
    else
      var n := GoQuo(x, g);
      var d := GoQuo(y, g);
      if d == 1 then Whole(n)
      else if d < 0 then NewRatio(Negate(n), Negate(d))
      else NewRatio(n, d)
  }

  ghost predicate Coprime(n: int, d: int) {
    forall k :: Divides(k, n) && Divides(k, d) ==> Abs(k) == 1
  }

  /** The quotient of `x` and `y`: an integer, or a fraction in lowest terms that is not one. */
  ghost predicate Exact(q: Quotient, x: int, y: int) {
    match q
    case Whole(n) => n * y == x
    case Ratio(n, d) => d >= 2 && n * y == x * d && Coprime(n, d)
    case DivideByZero => false
  }

  lemma Reduced(x: int64, y: int64, g: int, n: int, d: int)
    requires g == Gcd(x, y) != 0 && x == g * n && y == g * d
    ensures Coprime(n, d) && n * y == x * d
  {
    forall k | Divides(k, n) && Divides(k, d)
      ensures Abs(k) == 1
    {
      var p :| Multiple(k, p, n);
      var q :| Multiple(k, q, d);
      Associate(g, k, p);
      Associate(g, k, q);
      assert Multiple(g * k, p, x) && Multiple(g * k, q, y);
      GcdIsGreatest(x, y, g * k);
      var m :| Multiple(g * k, m, g);
      Associate(g, k, m);
      UnitFactors(g, k * m);
      UnitFactor(k, m);
    }
    Associate(n, g, d);
    assert n * g == g * n;
  }

  lemma Associate(a: int, b: int, c: int)
    ensures (a * b) * c == a * (b * c)
  {}

  lemma UnitFactors(g: int, u: int)
    requires g != 0 && g == g * u
    ensures u == 1
  {
    NumberOps.ExactQuo(u, g);
    NumberOps.ExactQuo(1, g);
  }

  lemma UnitFactor(k: int, m: int)
    requires k * m == 1
    ensures Abs(k) == 1
  {
    NumberOps.Multiple(m, k);
  }

  lemma CoprimeSigns(n: int, d: int)
    requires Coprime(n, d)
    ensures Coprime(-n, -d) && Coprime(-n, d) && Coprime(n, -d)
  {
    forall k, m | Divides(k, -m)
      ensures Divides(k, m)
    {
      var p :| Multiple(k, p, -m);
      assert Multiple(k, -p, m);
    }
  }

  /** Dividing by the gcd stays in range, except when -2^63 is divided by -1. */
  lemma Range(g: int, n: int, x: int)
    requires Fits(x) && g != 0 && x == g * n
    ensures if x == MIN && g == -1 then n == TWO63 else Fits(n)
    ensures n == MIN ==> x == MIN && g == 1
  {
    NumberOps.Multiple(g, n);
    if n == TWO63 || n == MIN { Multiples(g); }
  }

  lemma Multiples(g: int)
    ensures Fits(g * TWO63) ==> g == 0 || g == -1
    ensures Fits(g * MIN) ==> g == 0 || g == 1
  {}

  /** The divisors that -2^63 shares with an odd number are units, with an even one they are not all. */
  lemma MinAndOdd(y: int64)
    ensures Abs(Gcd(MIN, y)) == 1 <==> y % 2 == 1
  {
    var g := Gcd(MIN, y);
    GcdIsGreatest(MIN, y, 2);
    if y % 2 == 0 {
      assert Multiple(2, MIN / 2, MIN) && Multiple(2, y / 2, y);
      var m :| Multiple(2, m, g);
    } else {
      var q :| Multiple(g, q, MIN);
      var p :| Multiple(g, p, y);
      EvenProduct(g, p);
      One63();
      OddDivisor(g, -q, 63);
    }
  }

  lemma {:induction false} OddDivisor(g: int, q: int, n: nat)
    requires g % 2 == 1 && g * q == Words.One(n)
    ensures Abs(g) == 1
    decreases n
  {
    if n == 0 {
      UnitFactor(g, q);
    } else {
      if q % 2 == 1 { OddProduct(g, q); assert false; }
      assert q == q / 2 * 2;
      Associate(g, q / 2, 2);
      OddDivisor(g, q / 2, n - 1);
    }
  }

  lemma EvenProduct(g: int, p: int)
    ensures g % 2 == 0 ==> (g * p) % 2 == 0
  {
    if g % 2 == 0 { Associate(2, g / 2, p); }
  }

  lemma OddProduct(g: int, q: int)
    requires g % 2 == 1 && q % 2 == 1
    ensures (g * q) % 2 == 1
  {
    Distribute(2, g / 2 * q, q / 2, 1);
    assert g * q == (2 * (g / 2) + 1) * q == 2 * (g / 2 * q) + q;
  }

  /**
   `Divide` is exact except in two families at -2^63: an odd negative divisor under -2^63 itself,
   and -2^63 as the divisor when the loop ends in plus one.
   */
  lemma DivideExact(x: int64, y: int64)
    requires y != 0
    ensures Exact(Divide(x, y), x, y) <==> !(x == MIN && y < 0 && y % 2 == 1) && !(y == MIN && Gcd(x, y) == 1)
  {
    hide Gcd, Quo, GoQuo, Divide;
    var g := Gcd(x, y);
    GcdIsGreatest(x, y, 1);
    var n :| Multiple(g, n, x);
    var d :| Multiple(g, d, y);
    QuoOfMultiple(g, n, x);
    QuoOfMultiple(g, d, y);
    Reduced(x, y, g, n, d);
    CoprimeSigns(n, d);
    Range(g, n, x);
    Range(g, d, y);
    if d == -1 { MinusOne(x, y); }
    if x == 0 { assert Multiple(y, 0, x); GcdOfMultiple(x, y); }
    if x == MIN {
      MinAndOdd(y);
      if y < 0 { GcdOfNegatives(x, y); }
    }
    Outcome(x, y, g, n, d);
  }

  /** Under -2^63, only odd positive numbers can go wrong: dividing zero, a negative or an even number is exact. */
  lemma DivideByMinExact(x: int64)
    requires x <= 0 || x % 2 == 0
    ensures Gcd(x, MIN) != 1 && Exact(Divide(x, MIN), x, MIN)
  {
    hide Gcd, Divide, Exact;
    DivideExact(x, MIN);
    if x <= 0 {
      GcdOfNegatives(x, MIN);
    } else {
      GcdIsGreatest(x, MIN, 2);
      assert Multiple(2, x / 2, x) && Multiple(2, MIN / 2, MIN);
      OneIsOdd();
    }
  }

  lemma OneIsOdd()
    ensures !Divides(2, 1)
  {
    forall q ensures !Multiple(2, q, 1) {}
  }

  /** The case split of `Divide`, on the exact quotients `n` and `d` of the operands by `g`. */
  lemma Outcome(x: int, y: int, g: int, n: int, d: int)
    requires Fits(x) && Fits(y) && y != 0 && g == Gcd(x, y) != 0
    requires (g == 1 ==> x == n && y == d) && (g == -1 ==> x == -n && y == -d)
    requires n * y == x * d && d != 0 && d != -1
    requires GoQuo(x, g) == Wrap(n) && GoQuo(y, g) == Wrap(d)
    requires if x == MIN && g == -1 then n == TWO63 else Fits(n)
    requires if y == MIN && g == -1 then d == TWO63 else Fits(d)
    requires (n == MIN ==> x == MIN && g == 1) && (d == MIN ==> y == MIN && g == 1)
    requires Coprime(n, d) && Coprime(-n, -d) && Coprime(-n, d) && Coprime(n, -d)
    requires x == MIN ==> (Abs(g) == 1 <==> y % 2 == 1)
    requires x == MIN && y < 0 ==> g <= 0
    requires x == 0 ==> g == y
    ensures Exact(Divide(x, y), x, y) <==> !(x == MIN && y < 0 && y % 2 == 1) && !(y == MIN && g == 1)
  {
    hide Coprime, Gcd, GoQuo;
    assert Wrap(TWO63) == MIN;
    assert (-n) * y == x * (-d) by { Flip(n, y); Flip(d, x); }
  }

  lemma Flip(n: int, y: int)
    ensures (-n) * y == -(n * y) && y * (-n) == -(y * n)
  {}

  /** An integer exactly when the divisor divides. */
  lemma WholeWhenDivides(x: int64, y: int64)
    requires y != 0
    ensures Divide(x, y).Whole? <==> Divides(y, x)
    ensures Gcd(x, y) != 0 && GoQuo(y, Gcd(x, y)) != -1
  {
    hide Gcd, GoQuo, Quo;
    var g := Gcd(x, y);
    GcdIsGreatest(x, y, 1);
    GcdOfMultiple(x, y);
    var d :| Multiple(g, d, y);
    QuoOfMultiple(g, d, y);
    Range(g, d, y);
    assert d == 1 <==> g == y by { NotMinusOne(g, d, y); }
    if d == -1 { MinusOne(x, y); }
  }

  /** A gcd of the opposite sign would mean that the divisor divides, and then it is the gcd itself. */
  lemma MinusOne(x: int64, y: int64)
    requires y != 0
    ensures Gcd(x, y) != -(y as int)
  {
    hide Gcd;
    if Gcd(x, y) == -(y as int) {
      GcdIsGreatest(x, y, 1);
      GcdOfMultiple(x, y);
      var q :| Multiple(Gcd(x, y), q, x);
      assert Multiple(y, -q, x) by { Flip(q, y); }
    }
  }

  lemma NotMinusOne(g: int, d: int, y: int)
    requires g != 0 && y == g * d
    ensures d == 1 <==> g == y
  {
    if g == y { UnitFactors(g, d); }
  }

  lemma QuoOfMultiple(g: int64, n: int, x: int64)
    requires g != 0 && Multiple(g, n, x)
    ensures GoQuo(x, g) == Wrap(n)
  {
    NumberOps.ExactQuo(n, g);
  }

  /** Dividing by zero is not checked first: zero by zero is zero, anything else reaches `big.NewRat`. */
  lemma ByZero(x: int64)
    ensures Divide(x, 0) == if x == 0 then Whole(0) else DivideByZero
  {
    if x != 0 {
      assert Multiple(x, 1, x) && Multiple(x, 0, 0);
      QuoOfMultiple(x, 1, x);
      QuoOfMultiple(x, 0, 0);
    }
  }

  /** Both families are inhabited: 1 / -2^63 comes out positive and -2^63 / -1 negative. */
  lemma WrongAtMin()
    ensures Divide(1, MIN) == Ratio(1, TWO63) && !Exact(Divide(1, MIN), 1, MIN)
    ensures Divide(MIN, -1) == Whole(MIN) && !Exact(Divide(MIN, -1), MIN, -1)
  {
    assert GoRem(1, MIN) == 1 && GoRem(MIN, 1) == 0 && GoRem(MIN, -1) == 0;
    assert Gcd(MIN, -1) == -1 && Gcd(MIN, 1) == 1;
    assert Gcd(1, MIN) == 1;
    assert GoQuo(1, 1) == 1 && GoQuo(MIN, 1) == MIN && GoQuo(MIN, -1) == MIN;
    assert Negate(1) == -1 && Negate(MIN) == MIN;
  }
}
