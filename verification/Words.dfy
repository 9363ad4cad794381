/**
 The machine words behind the trie: Go's `&`, `|`, `^`, `>>` and `<<` on non-negative
 integers, digit by digit, and the population count of `pkg/lang/persistenthashmap.go`.
 A bitmap is a word; `Bit(w, i)` says that position `i` is set and `Rank(w, i)` counts
 the set positions below `i`.
 */
module Words {

  function And(a: nat, b: nat): nat {
    if a == 0 || b == 0 then 0
    else 2 * And(a / 2, b / 2) + (if a % 2 == 1 && b % 2 == 1 then 1 else 0)
  }

  function Or(a: nat, b: nat): nat {
    if a == 0 && b == 0 then 0
    else 2 * Or(a / 2, b / 2) + (if a % 2 == 1 || b % 2 == 1 then 1 else 0)
  }

  function Xor(a: nat, b: nat): nat {
    if a == 0 && b == 0 then 0
    else 2 * Xor(a / 2, b / 2) + (if a % 2 != b % 2 then 1 else 0)
  }

  function Shr(w: nat, s: nat): nat {
    if s == 0 then w else Shr(w / 2, s - 1)
  }

  /** The word `1 << i`. */
  function One(i: nat): (r: nat)
    ensures r > 0
  {
    if i == 0 then 1 else 2 * One(i - 1)
  }

  predicate Bit(w: nat, i: nat) {
    if i == 0 then w % 2 == 1 else Bit(w / 2, i - 1)
  }

  function Rank(w: nat, i: nat): nat {
    if i == 0 then 0 else Rank(w, i - 1) + (if Bit(w, i - 1) then 1 else 0)
  }

  // ---- the population count ----

  lemma {:induction false} AndSelf(a: nat)
    ensures And(a, a) == a
  {
    if a > 0 { AndSelf(a / 2); }
  }

  lemma {:induction false} AndPred(n: nat)
    requires n > 0
    ensures And(n, n - 1) == (if n % 2 == 1 then n - 1 else 2 * And(n / 2, n / 2 - 1))
    ensures And(n, n - 1) < n
  {
    if n % 2 == 1 {
      AndSelf(n / 2);
    } else {
      AndPred(n / 2);
    }
  }

  /** What the loop of `bitCount` computes: the number of times the lowest set bit can be cleared. */
  function BitCount(n: nat): nat
    decreases n
  {
    if n == 0 then 0 else (AndPred(n); 1 + BitCount(And(n, n - 1)))
  }

  method BitCountLoop(n: nat) returns (count: nat)
    ensures count == BitCount(n)
    ensures forall i | n < One(i) :: count == Rank(n, i)
  {
    count := 0;
    var m := n;
    while m != 0
      invariant count + BitCount(m) == BitCount(n)
      decreases m
    {
      AndPred(m);
      count := count + 1;
      m := And(m, m - 1);
    }
    forall i | n < One(i) ensures count == Rank(n, i) { CountIsRank(n, i); }
  }

  lemma {:induction false} CountHalf(n: nat)
    ensures BitCount(n) == n % 2 + BitCount(n / 2)
    decreases n
  {
    if n > 0 {
      AndPred(n);
      if n % 2 == 1 {
        var m := n - 1;
        if m > 0 { CountHalf(m); }
        assert m / 2 == n / 2;
      } else {
        var h := n / 2;
        AndPred(h);
        assert And(n, n - 1) == 2 * And(h, h - 1);
        CountHalf(2 * And(h, h - 1));
      }
    }
  }

  lemma {:induction false} RankHalf(w: nat, i: nat)
    requires i > 0
    ensures Rank(w, i) == w % 2 + Rank(w / 2, i - 1)
  {
    if i > 1 {
      RankHalf(w, i - 1);
      assert Bit(w, i - 1) == Bit(w / 2, i - 2);
    } else {
      assert Rank(w, 1) == Rank(w, 0) + (if Bit(w, 0) then 1 else 0);
    }
  }

  /** `bitCount` counts the set positions. */
  lemma {:induction false} CountIsRank(w: nat, i: nat)
    requires w < One(i)
    ensures BitCount(w) == Rank(w, i)
  {
    if i > 0 {
      CountHalf(w);
      RankHalf(w, i);
      CountIsRank(w / 2, i - 1);
    }
  }

  // ---- single positions ----

  lemma Halves(w: nat, h: nat)
    ensures w == 2 * h ==> w / 2 == h && w % 2 == 0
    ensures w == 2 * h + 1 ==> w / 2 == h && w % 2 == 1
  {}

  lemma {:induction false} BitAnd(a: nat, b: nat, i: nat)
    ensures Bit(And(a, b), i) <==> Bit(a, i) && Bit(b, i)
  {
    ZeroBits(i);
    Halves(And(a, b), And(a / 2, b / 2));
    if i > 0 { BitAnd(a / 2, b / 2, i - 1); }
  }

  lemma {:induction false} BitOr(a: nat, b: nat, i: nat)
    ensures Bit(Or(a, b), i) <==> Bit(a, i) || Bit(b, i)
  {
    ZeroBits(i);
    Halves(Or(a, b), Or(a / 2, b / 2));
    if i > 0 { BitOr(a / 2, b / 2, i - 1); }
  }

  lemma {:induction false} BitXor(a: nat, b: nat, i: nat)
    ensures Bit(Xor(a, b), i) <==> Bit(a, i) != Bit(b, i)
  {
    ZeroBits(i);
    Halves(Xor(a, b), Xor(a / 2, b / 2));
    if i > 0 { BitXor(a / 2, b / 2, i - 1); }
  }

  lemma {:induction false} ZeroBits(i: nat)
    ensures !Bit(0, i)
  {
    if i > 0 { ZeroBits(i - 1); }
  }

  lemma {:induction false} BitOne(i: nat, j: nat)
    ensures Bit(One(i), j) <==> i == j
  {
    if i > 0 && j > 0 { BitOne(i - 1, j - 1); }
    else if i == 0 && j > 0 { ZeroBits(j - 1); }
  }

  /** `1 << i` minus one has exactly the positions below `i`. */
  lemma {:induction false} BitOnes(i: nat, j: nat)
    ensures Bit(One(i) - 1, j) <==> j < i
  {
    if i == 0 {
      ZeroBits(j);
    } else {
      assert (One(i) - 1) / 2 == One(i - 1) - 1;
      if j > 0 { BitOnes(i - 1, j - 1); }
    }
  }

  lemma {:induction false} Extensional(a: nat, b: nat)
    requires forall i :: Bit(a, i) == Bit(b, i)
    ensures a == b
    decreases a + b
  {
    if a + b > 0 {
      assert Bit(a, 0) == Bit(b, 0);
      forall i: nat ensures Bit(a / 2, i) == Bit(b / 2, i) {
        assert Bit(a, i + 1) == Bit(b, i + 1);
      }
      Extensional(a / 2, b / 2);
    }
  }

  lemma {:induction false} NoHighBits(w: nat, n: nat, i: nat)
    requires w < One(n) && n <= i
    ensures !Bit(w, i)
  {
    if n == 0 { ZeroBits(i); } else { NoHighBits(w / 2, n - 1, i - 1); }
  }

  lemma {:induction false} BoundedBits(w: nat, n: nat)
    requires forall i | n <= i :: !Bit(w, i)
    ensures w < One(n)
  {
    if n == 0 {
      forall i: nat ensures Bit(w, i) == Bit(0, i) { ZeroBits(i); }
      Extensional(w, 0);
    } else {
      forall i | n - 1 <= i ensures !Bit(w / 2, i) { assert !Bit(w, i + 1); }
      BoundedBits(w / 2, n - 1);
    }
  }

  /** `w & bit != 0` tests the position of `bit`. */
  lemma TestBit(w: nat, i: nat)
    ensures And(w, One(i)) != 0 <==> Bit(w, i)
  {
    BitAnd(w, One(i), i);
    BitOne(i, i);
    ZeroBits(i);
    if !Bit(w, i) {
      forall j: nat ensures Bit(And(w, One(i)), j) == Bit(0, j) {
        BitAnd(w, One(i), j);
        BitOne(i, j);
        ZeroBits(j);
      }
      Extensional(And(w, One(i)), 0);
    }
  }

  lemma {:induction false} RankFrame(w: nat, v: nat, i: nat)
    requires forall j | 0 <= j < i :: Bit(w, j) == Bit(v, j)
    ensures Rank(w, i) == Rank(v, i)
  {
    if i > 0 { RankFrame(w, v, i - 1); }
  }

  lemma {:induction false} RankTail(w: nat, lo: nat, hi: nat)
    requires lo <= hi
    requires forall j | lo <= j < hi :: !Bit(w, j)
    ensures Rank(w, lo) == Rank(w, hi)
  {
    if lo < hi { RankTail(w, lo, hi - 1); }
  }

  /** `bitCount(bitmap & (bit - 1))` is the rank of the position of `bit`. */
  lemma IndexIsRank(w: nat, n: nat, i: nat)
    requires w < One(n) && i < n
    ensures One(i) >= 1
    ensures BitCount(And(w, One(i) - 1)) == Rank(w, i)
  {
    var low := And(w, One(i) - 1);
    forall j: nat ensures Bit(low, j) <==> Bit(w, j) && j < i {
      BitAnd(w, One(i) - 1, j);
      BitOnes(i, j);
    }
    BoundedBits(low, i);
    CountIsRank(low, i);
    RankFrame(low, w, i);
  }

  lemma {:induction false} RankMono(w: nat, i: nat, j: nat)
    requires i <= j
    ensures Rank(w, i) <= Rank(w, j) <= Rank(w, i) + (j - i)
    ensures i < j && Bit(w, i) ==> Rank(w, i) < Rank(w, j)
  {
    if i < j { RankMono(w, i, j - 1); }
  }

  /** Setting a clear position, or clearing a set one, shifts the ranks above it by one. */
  lemma {:induction false} RankFlip(w: nat, v: nat, i: nat, j: nat)
    requires Bit(v, i) && !Bit(w, i)
    requires forall k | k != i :: Bit(w, k) == Bit(v, k)
    ensures Rank(v, j) == Rank(w, j) + (if i < j then 1 else 0)
  {
    if j > 0 { RankFlip(w, v, i, j - 1); }
  }

  lemma {:induction false} ShrStep(w: nat, s: nat, t: nat)
    ensures Shr(w, s + t) == Shr(Shr(w, s), t)
  {
    if s > 0 { ShrStep(w / 2, s - 1, t); }
  }
}
