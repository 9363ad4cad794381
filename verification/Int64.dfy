/**
 Go's fixed-width integers: wrap-around, two's-complement words, truncated division, and the
 checked operations of `pkg/lang/int64.go`, which detect overflow on the bits of the result.
 */
module Int64 {
  import opened Words
  import opened Objects

  const TWO63: int := 0x8000_0000_0000_0000
  const TWO64: int := 0x1_0000_0000_0000_0000
  const MIN: int := -TWO63
  const MAX: int := TWO63 - 1

  type int64 = x: int | -0x8000_0000_0000_0000 <= x < 0x8000_0000_0000_0000

  predicate Fits(x: int) { MIN <= x <= MAX }

  /** The value a 64-bit register keeps of `x`. */
  function Wrap(x: int): (r: int64)
    ensures Fits(x) ==> r == x
  {
    (x + TWO63) % TWO64 - TWO63
  }

  lemma WrapStep(x: int, k: int)
    requires Fits(x + k * TWO64)
    ensures Wrap(x) == x + k * TWO64
  {}

  /** The two's-complement word of `x`, Go's `uint64(x)`. */
  function Word(x: int64): (w: nat)
    ensures w < TWO64 && (w >= TWO63 <==> x < 0)
  {
    if x < 0 then x + TWO64 else x
  }

  /** `int64(w) < 0`: the sign bit. */
  predicate Negative(w: nat) { Bit(w, 63) }

  lemma One63()
    ensures One(63) == TWO63 && One(64) == TWO64
  {
    hide One;
    OneSmall();
    OneSum(4, 3);
    OneSum(4, 4);
    OneSum(8, 8);
    OneSum(16, 16);
    OneSum(32, 16);
    OneSum(48, 8);
    OneSum(56, 7);
    OneSum(32, 32);
  }

  lemma OneSmall()
    ensures One(3) == 8 && One(4) == 16
  {}

  lemma {:induction false} OneSum(a: nat, b: nat)
    ensures One(a + b) == One(a) * One(b)
  {
    if a > 0 { OneSum(a - 1, b); }
  }

  lemma {:induction false} TopBit(w: nat, n: nat)
    requires w < One(n + 1)
    ensures Bit(w, n) <==> w >= One(n)
  {
    if n > 0 { TopBit(w / 2, n - 1); }
  }

  lemma SignBit(x: int64)
    ensures Negative(Word(x)) <==> x < 0
  {
    One63();
    TopBit(Word(x), 63);
  }

  lemma SignOfAndXor(a: int64, b: int64, c: int64, d: int64)
    ensures Negative(And(Xor(Word(a), Word(b)), Xor(Word(c), Word(d)))) <==> (a < 0) != (b < 0) && (c < 0) != (d < 0)
  {
    BitAnd(Xor(Word(a), Word(b)), Xor(Word(c), Word(d)), 63);
    BitXor(Word(a), Word(b), 63);
    BitXor(Word(c), Word(d), 63);
    SignBit(a);
    SignBit(b);
    SignBit(c);
    SignBit(d);
  }

  // ---- checked operations; None is the "integer overflow" panic ----

  function CheckedAdd(a: int64, b: int64): (r: Option<int64>)
    ensures r == if Fits(a + b) then Some(a + b) else None
  {
    var result := Wrap(a + b);
    SignOfAndXor(a, result, b, result);
    if Negative(And(Xor(Word(a), Word(result)), Xor(Word(b), Word(result)))) then None else Some(result)
  }

  function CheckedSub(a: int64, b: int64): (r: Option<int64>)
    ensures r == if Fits(a - b) then Some(a - b) else None
  {
    var result := Wrap(a - b);
    SignOfAndXor(a, b, a, result);
    if Negative(And(Xor(Word(a), Word(b)), Xor(Word(a), Word(result)))) then None else Some(result)
  }

  function CheckedNegate(value: int64): (r: Option<int64>)
    ensures r == if Fits(-(value as int)) then Some(-(value as int)) else None
  {
    if value == MIN then None else Some(-value)
  }

  predicate FitsInt32(x: int64) { -0x8000_0000 <= x < 0x8000_0000 }

  /** `x >> 63`: zero, or minus one for a negative number. */
  function Sar63(x: int64): int64 { if x < 0 then -1 else 0 }

  /** `bits.Mul64`: the two words of the 128-bit unsigned product. */
  function Mul64(x: nat, y: nat): (nat, nat) { (x * y / TWO64, x * y % TWO64) }

  /** Go's subtraction on `uint64`. */
  function SubWord(x: nat, y: nat): nat { (x - y) % TWO64 }

  /** `int64(w)`. */
  function Signed(w: nat): (r: int64)
    requires w < TWO64
    ensures Word(r) == w
  {
    if w >= TWO63 then w - TWO64 else w
  }

  function CheckedMultiply(a: int64, b: int64): (r: Option<int64>)
    ensures r == if Fits(a * b) then Some(a * b) else None
  {
    if FitsInt32(a) && FitsInt32(b) then
      SmallProduct(a, b);
      Some(Wrap(a * b))
    else
      var (high0, low) := Mul64(Word(a), Word(b));
      var high1 := SubWord(high0, And(Word(Sar63(a)), Word(b)));
      var high := SubWord(high1, And(Word(Sar63(b)), Word(a)));
      var result := Signed(low);
      HighWord(a, b);
      if Signed(high) != Sar63(result) then None else Some(result)
  }

  lemma SmallProduct(a: int, b: int)
    requires -0x8000_0000 <= a < 0x8000_0000 && -0x8000_0000 <= b < 0x8000_0000
    ensures Fits(a * b)
  {
    var m := 0x8000_0000;
    assert -m * m <= a * b <= m * m by {
      if a >= 0 { Scale(a, -m, b); Scale(a, b, m); Scale(m, a, m); Scale(m, -m, -a); }
      else { Scale(-a, -m, b); Scale(-a, b, m); Scale(m, -a, m); Scale(m, -m, a); }
    }
  }

  lemma Scale(k: int, x: int, y: int)
    requires k >= 0 && x <= y
    ensures k * x <= k * y
  {}

  lemma {:induction false} AndOnes(n: nat, w: nat)
    requires w < One(n)
    ensures And(One(n) - 1, w) == w
  {
    if n > 0 {
      var ones := One(n - 1) - 1;
      AndOnes(n - 1, w / 2);
      AndOdd(ones, w);
    }
  }

  lemma AndOdd(m: nat, w: nat)
    ensures And(2 * m + 1, w) == 2 * And(m, w / 2) + w % 2
  {
    assert (2 * m + 1) / 2 == m && (2 * m + 1) % 2 == 1;
  }

  lemma AndSar(x: int64, w: nat)
    requires w < TWO64
    ensures And(Word(Sar63(x)), w) == if x < 0 then w else 0
  {
    One63();
    if x < 0 { AndOnes(64, w); }
  }

  /** The corrected high word is the high word of the signed product. */
  lemma HighWord(a: int64, b: int64)
    ensures var (high0, low) := Mul64(Word(a), Word(b));
            var high := SubWord(SubWord(high0, And(Word(Sar63(a)), Word(b))), And(Word(Sar63(b)), Word(a)));
            && low < TWO64
            && high < TWO64
            && (Signed(high) == Sar63(Signed(low)) <==> Fits(a * b))
            && (Fits(a * b) ==> Signed(low) == a * b)
  {
    var x, y := Word(a), Word(b);
    var (high0, low) := Mul64(x, y);
    AndSar(a, y);
    AndSar(b, x);
    var s, t := if a < 0 then 1 else 0, if b < 0 then 1 else 0;
    var sy, tx := if a < 0 then y else 0, if b < 0 then x else 0;
    var p := high0 - sy - tx + s * t * TWO64;
    var product: int := a * b;
    HighAndLow(a, b, x, y, x * y, product);
    SplitWord(x * y, high0, low);
    assert p * TWO64 + low == product;
    ProductRange(a, b);
    RangeOfHigh(product, p, low);
    SubTwice(high0, sy, tx, p, s * t);
    SignExtension(product, p, low);
  }

  lemma SplitWord(w: nat, high: nat, low: nat)
    requires high == w / TWO64 && low == w % TWO64
    ensures w == high * TWO64 + low && low < TWO64
  {}

  /** Expands (a + s·2^64)(b + t·2^64), where the words of negative numbers are 2^64 too large. */
  lemma HighAndLow(a: int, b: int, x: int, y: int, xy: int, ab: int)
    requires x == (if a < 0 then a + TWO64 else a) && y == (if b < 0 then b + TWO64 else b)
    requires xy == x * y && ab == a * b
    ensures xy == ab + ((if a < 0 then y else 0) + (if b < 0 then x else 0)
                        - (if a < 0 && b < 0 then TWO64 else 0)) * TWO64
  {
    Expand(a, b, if a < 0 then TWO64 else 0, if b < 0 then TWO64 else 0);
  }

  lemma Expand(a: int, b: int, s: int, t: int)
    ensures (a + s) * (b + t) == a * b + s * b + a * t + s * t
  {}

  lemma ProductRange(a: int, b: int)
    requires Fits(a) && Fits(b)
    ensures -TWO63 * TWO63 <= a * b <= TWO63 * TWO63
  {
    if a >= 0 { Scale(a, -TWO63, b); Scale(a, b, TWO63); Scale(TWO63, a, TWO63); Scale(TWO63, -TWO63, -a); }
    else { Scale(-a, -TWO63, b); Scale(-a, b, TWO63); Scale(TWO63, -TWO63, a); Scale(TWO63, -a, TWO63); }
  }

  lemma SignExtension(product: int, p: int, low: nat)
    requires low < TWO64 && p * TWO64 + low == product && -TWO63 <= p < TWO63
    ensures p == Sar63(Signed(low)) <==> Fits(product)
    ensures Fits(product) ==> Signed(low) == product
  {}

  lemma RangeOfHigh(product: int, p: int, low: nat)
    requires low < TWO64 && p * TWO64 + low == product
    requires -TWO63 * TWO63 <= product <= TWO63 * TWO63
    ensures -TWO63 <= p < TWO63
  {}

  lemma SubTwice(h: nat, y: nat, x: nat, p: int, k: int)
    requires p == h - y - x + k * TWO64 && -TWO63 <= p < TWO63
    requires k == 0 || k == 1
    ensures SubWord(SubWord(h, y), x) < TWO64 && Signed(SubWord(SubWord(h, y), x)) == p
  {}

  // ---- truncated division ----

  function Quo(a: int, b: int): int
    requires b != 0
  {
    if (a >= 0) == (b > 0) then Abs(a) / Abs(b) else -(Abs(a) / Abs(b))
  }

  function Abs(x: int): nat { if x < 0 then -x else x }

  /** Go's `a / b` on `int64`. */
  function GoQuo(a: int64, b: int64): int64
    requires b != 0
  { Wrap(Quo(a, b)) }

  /** Go's `a % b`, which takes the sign of `a`. */
  function GoRem(a: int64, b: int64): (r: int64)
    requires b != 0
    ensures r == a - b * Quo(a, b) && Abs(r) < Abs(b) && (r == 0 || (r < 0) == (a < 0))
  {
    RemBounds(a, b);
    a - b * Quo(a, b)
  }

  lemma RemBounds(a: int, b: int)
    requires b != 0
    ensures var r := a - b * Quo(a, b);
            Abs(r) < Abs(b) && Abs(r) <= Abs(a) && (r == 0 || (r < 0) == (a < 0))
  {
    var m, n := Abs(a), Abs(b);
    RemCases(a, b, m / n, m % n);
  }

  lemma RemCases(a: int, b: int, q: int, r: int)
    requires b != 0 && Abs(a) == Abs(b) * q + r && 0 <= r < Abs(b) && q >= 0
    ensures a - b * (if (a >= 0) == (b > 0) then q else -q) == if a < 0 then -r else r
    ensures r <= Abs(a)
  {
    if b < 0 { assert Abs(b) * q == -(b * q); }
    assert b * -q == -(b * q);
    Scale(q, 0, Abs(b));
  }
}
