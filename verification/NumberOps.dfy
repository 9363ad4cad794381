/**
 Arithmetic on boxed numbers: the generic int64 operations of `pkg/lang/numberops.go` and the
 fast paths that `pkg/lang/numbers.go` puts in front of them. `None` is the overflow panic.
 */
module NumberOps {
  import opened Objects
  import opened Int64

  /** `Long` is a boxed int64, `Machine` a boxed Go `int`, `Big` an arbitrary-precision integer. */
  datatype Number = Long(long: int64) | Machine(word: int64) | Big(big: int)

  function Value(n: Number): int {
    match n
    case Long(v) => v
    case Machine(v) => v
    case Big(v) => v
  }

  /** Two results are the same number, or both overflow. */
  predicate SameOutcome(r: Option<Number>, s: Option<Number>) {
    (r.None? && s.None?) || (r.Some? && s.Some? && Value(r.value) == Value(s.value))
  }

  // ---- the generic operations ----

  function Add(a: int64, b: int64): (r: Option<Number>)
    ensures r == if Fits(a + b) then Some(Long(a + b)) else None
  {
    var c := Wrap(a + b);
    if (c > a) == (b > 0) then Some(Long(c)) else None
  }

  function Sub(a: int64, b: int64): (r: Option<Number>)
    ensures r == if Fits(a - b) then Some(Long(a - b)) else None
  {
    var c := Wrap(a - b);
    if (c < a) == (b > 0) then Some(Long(c)) else None
  }

  function Multiply(a: int64, b: int64): (r: Option<Number>)
    ensures r.Some? <==> Fits(a * b)
    ensures r.Some? ==> Value(r.value) == a * b && (r.value.Machine? <==> a * b == 0) && !r.value.Big?
  {
    ZeroProduct(a, b);
    if a == 0 || b == 0 then Some(Machine(0))
    else
      var c := Wrap(a * b);
      QuotientTest(a, b, a * b);
      if (c < 0) == ((a < 0) != (b < 0)) && GoQuo(c, b) == a then Some(Long(c)) else None
  }

  function AddP(a: int64, b: int64): (r: Number)
    ensures Value(r) == a + b && (r.Big? <==> !Fits(a + b))
  {
    var c := Wrap(a + b);
    SignOfXor(c, a);
    SignOfXor(c, b);
    if Negative(Words.Xor(Word(c), Word(a))) && Negative(Words.Xor(Word(c), Word(b))) then Big(a + b) else Long(c)
  }

  function MultiplyP(a: int64, b: int64): (r: Number)
    ensures Value(r) == a * b && (r.Big? <==> !Fits(a * b))
  {
    ZeroProduct(a, b);
    ProductTest(a, b);
    var c := Wrap(a * b);
    if a == MIN && b < 0 then Big(a * b)
    else if b != 0 && GoQuo(c, b) != a then Big(a * b)
    else Long(c)
  }

  lemma ProductTest(a: int64, b: int64)
    ensures b != 0 && !(a == MIN && b < 0) ==> (GoQuo(Wrap(a * b), b) == a <==> Fits(a * b))
    ensures a == MIN && b < 0 ==> !Fits(a * b)
  {
    if b != 0 { QuotientTest(a, b, a * b); }
  }

  lemma SignOfXor(a: int64, b: int64)
    ensures Negative(Words.Xor(Word(a), Word(b))) <==> (a < 0) != (b < 0)
  {
    Words.BitXor(Word(a), Word(b), 63);
    SignBit(a);
    SignBit(b);
  }

  lemma ZeroProduct(a: int, b: int)
    ensures a * b == 0 <==> a == 0 || b == 0
    ensures a * b < 0 <==> (a < 0 && b > 0) || (a > 0 && b < 0)
  {
    if a > 0 && b != 0 { Scale(a, 1, if b > 0 then b else -b); assert a * (-b) == -(a * b); }
    if a < 0 && b != 0 {
      Scale(-a, 1, if b > 0 then b else -b);
      assert (-a) * b == -(a * b);
      assert (-a) * (-b) == a * b;
    }
  }

  /** The wrapped product divides back to `a` only when nothing was lost, or at -2^63 * -1. */
  lemma QuotientTest(a: int, b: int, product: int)
    requires Fits(a) && Fits(b) && b != 0 && product == a * b
    ensures GoQuo(Wrap(product), b) == a <==> Fits(product) || (a == MIN && b == -1)
    ensures a == MIN && b < 0 ==> !Fits(product)
    ensures a == MIN && b == -1 ==> Wrap(product) == MIN
  {
    var c: int := Wrap(product);
    RemBounds(c, b);
    QuoRange(c, b);
    ExactQuo(a, b);
    if a == MIN && b < 0 { Scale(TWO63, 1, -b); }
    if a == MIN && b == -1 {
      WrapStep(product, -1);
    } else if GoQuo(c, b) == a {
      if c == MIN && b == -1 { assert false; }
      Congruent(c, b, b * a);
    }
  }

  /** A product that agrees with the register up to less than |b| is what the register holds. */
  lemma Congruent(c: int, b: int, product: int)
    requires Fits(b) && c == Wrap(product) && Abs(c - product) < Abs(b)
    ensures c == product
  {
    WrapIsCongruent(product);
  }

  lemma WrapIsCongruent(x: int)
    ensures Wrap(x) == x + TWO64 * ((Wrap(x) - x) / TWO64)
  {
    var y := x + TWO63;
    assert y == TWO64 * (y / TWO64) + y % TWO64;
    assert Wrap(x) - x == TWO64 * -(y / TWO64);
  }

  /** Truncated quotients of int64 values stay in range, except -2^63 / -1. */
  lemma QuoRange(c: int64, b: int64)
    requires b != 0
    ensures if c == MIN && b == -1 then Quo(c, b) == TWO63 else Fits(Quo(c, b))
  {
    var m, n := Abs(c), Abs(b);
    QuoBound(m, n);
  }

  lemma QuoBound(m: nat, n: nat)
    requires n > 0
    ensures 0 <= m / n <= m
    ensures n == 1 ==> m / n == m
    ensures n > 1 ==> 2 * (m / n) <= m
  {
    assert m == n * (m / n) + m % n;
    if n > 1 { Scale(m / n, 2, n); }
    else { assert n * (m / n) == m / n; }
  }

  lemma ExactQuo(n: int, g: int)
    requires g != 0
    ensures Quo(n * g, g) == n
  {
    RemBounds(n * g, g);
    Multiple(n - Quo(n * g, g), g);
  }

  lemma Multiple(d: int, g: int)
    ensures d != 0 ==> Abs(d * g) >= Abs(g)
  {
    if d > 0 { Scale(Abs(g), 1, d); }
    if d < 0 { Scale(Abs(g), 1, -d); }
  }

  // ---- the fast paths ----

  function FastAdd(a: int64, b: int64): Option<Number> {
    var r := CheckedAdd(a, b);
    if r.Some? then Some(Long(r.value)) else None
  }

  function FastMinus(a: int64, b: int64): Option<Number> {
    var r := CheckedSub(a, b);
    if r.Some? then Some(Long(r.value)) else None
  }

  function FastMultiply(a: int64, b: int64): Option<Number> {
    var r := CheckedMultiply(a, b);
    if r.Some? then Some(Long(r.value)) else None
  }

  /** The fast paths never change an outcome; a zero product is only boxed differently. */
  lemma FastPathsAgree(a: int64, b: int64)
    ensures FastAdd(a, b) == Add(a, b)
    ensures FastMinus(a, b) == Sub(a, b)
    ensures SameOutcome(FastMultiply(a, b), Multiply(a, b))
    ensures FastMultiply(a, b) == Multiply(a, b) <==> a * b != 0
  {}
}
