/** How the array surgery of the trie operations acts on the cells of a node. */
module TrieCells {
  import opened Words
  import opened Objects
  import opened Trie

  /** The position of chunk value `m` in the pair array: `bitCount(bitmap & (bit - 1))`. */
  function Index(bitmap: nat, m: nat): (idx: nat)
    requires bitmap < One(32) && m < 32
    ensures idx == Rank(bitmap, m) <= Rank(bitmap, 32)
    ensures Bit(bitmap, m) ==> idx < Rank(bitmap, 32)
  {
    IndexIsRank(bitmap, 32, m);
    RankMono(bitmap, m, 32);
    BitCount(And(bitmap, One(m) - 1))
  }

  ghost predicate CellUpdated(n: Node, n': Node, depth: nat, m: nat, c: Cell) {
    && !n.Collision? && !n'.Collision? && Shape(n, depth) && Shape(n', depth) && m < 32
    && CellAt(n', m, depth) == c
    && forall i | 0 <= i < 32 && i != m :: CellAt(n', i, depth) == CellAt(n, i, depth)
  }

  /** The cell of a pair array at chunk value `i`, for any array that covers the bitmap. */
  function PairsCell(bitmap: nat, pairs: seq<Any>, i: nat): Cell
    requires Bit(bitmap, i) ==> 2 * Rank(bitmap, i) + 1 < |pairs| && KeyAny(pairs, Rank(bitmap, i)).Obj?
  {
    if Bit(bitmap, i) then PairCell(KeyAny(pairs, Rank(bitmap, i)), ValAny(pairs, Rank(bitmap, i))) else Vacant
  }

  ghost predicate GoodPairs(pairs: seq<Any>, n: nat) {
    |pairs| == 2 * n
    && forall j | 0 <= j < n :: KeyAny(pairs, j).Obj? && (ValAny(pairs, j).Sub? ==> KeyAny(pairs, j) == Obj(Nil))
  }

  lemma UpdatedFromPairs(n: Node, n': Node, depth: nat, m: nat, c: Cell)
    requires n.Bitmap? && n'.Bitmap? && Shape(n, depth) && m < Width(depth) <= 32
    requires n'.bitmap < One(32) && Rank(n'.bitmap, 32) <= 16 && GoodPairs(n'.pairs, Rank(n'.bitmap, 32))
    requires forall k | 0 <= k < 32 && k != m :: Bit(n'.bitmap, k) == Bit(n.bitmap, k)
    requires forall k | 0 <= k < 32 :: Bit(n.bitmap, k) ==> Rank(n.bitmap, k) < Rank(n.bitmap, 32)
    requires forall k | 0 <= k < 32 :: Bit(n'.bitmap, k) ==> Rank(n'.bitmap, k) < Rank(n'.bitmap, 32)
    requires forall k | 0 <= k < 32 && k != m :: PairsCell(n'.bitmap, n'.pairs, k) == PairsCell(n.bitmap, n.pairs, k)
    requires PairsCell(n'.bitmap, n'.pairs, m) == c
    ensures CellUpdated(n, n', depth, m, c)
  {
    forall i | 0 <= i < 32 ensures CellAt(n', i, depth) == PairsCell(n'.bitmap, n'.pairs, i) {}
    forall i | 0 <= i < 32 ensures CellAt(n, i, depth) == PairsCell(n.bitmap, n.pairs, i) {}
  }

  lemma RankInside(w: nat)
    ensures forall k | 0 <= k < 32 :: Bit(w, k) ==> Rank(w, k) < Rank(w, 32)
  {
    forall k | 0 <= k < 32 ensures Bit(w, k) ==> Rank(w, k) < Rank(w, 32) { RankMono(w, k, 32); }
  }

  lemma RankApart(w: nat, i: nat, m: nat)
    requires i != m && Bit(w, i) && Bit(w, m)
    ensures if i < m then Rank(w, i) < Rank(w, m) else Rank(w, m) < Rank(w, i)
  {
    if i < m { RankMono(w, i, m); } else { RankMono(w, m, i); }
  }

  lemma BitBelowWidth(n: Node, depth: nat, m: nat)
    requires n.Bitmap? && Shape(n, depth) && m < 32 && Bit(n.bitmap, m)
    ensures m < Width(depth)
  {}

  lemma SetPair(n: Node, depth: nat, m: nat, key: Any, val: Any)
    requires n.Bitmap? && Shape(n, depth) && m < 32 && Bit(n.bitmap, m)
    requires key.Obj? && (val.Sub? ==> key == Obj(Nil))
    ensures var r := Index(n.bitmap, m);
            CellUpdated(n, Bitmap(n.bitmap, n.pairs[2 * r := key][2 * r + 1 := val]), depth, m, PairCell(key, val))
  {
    hide Bit, Rank, One, Or, Xor, And;
    var r := Index(n.bitmap, m);
    var ps := n.pairs[2 * r := key][2 * r + 1 := val];
    RankInside(n.bitmap);
    BitBelowWidth(n, depth, m);
    SetAt(n.pairs, r, key, val);
    assert GoodPairs(ps, Rank(n.bitmap, 32));
    forall i | 0 <= i < 32 && i != m ensures PairsCell(n.bitmap, ps, i) == PairsCell(n.bitmap, n.pairs, i) {
      if Bit(n.bitmap, i) { RankApart(n.bitmap, i, m); }
    }
    UpdatedFromPairs(n, Bitmap(n.bitmap, ps), depth, m, PairCell(key, val));
  }

  lemma SetVal(n: Node, depth: nat, m: nat, val: Any)
    requires n.Bitmap? && Shape(n, depth) && m < 32 && Bit(n.bitmap, m)
    requires val.Sub? ==> KeyAny(n.pairs, Index(n.bitmap, m)) == Obj(Nil)
    ensures var r := Index(n.bitmap, m);
            CellUpdated(n, Bitmap(n.bitmap, CloneAndSet(n.pairs, 2 * r + 1, val)), depth, m,
                        PairCell(KeyAny(n.pairs, r), val))
  {
    var r := Index(n.bitmap, m);
    SetPair(n, depth, m, KeyAny(n.pairs, r), val);
    assert n.pairs[2 * r := n.pairs[2 * r]] == n.pairs;
  }

  lemma InsertGood(ps: seq<Any>, n: nat, r: nat, key: Object, val: Object)
    requires GoodPairs(ps, n) && r <= n
    ensures GoodPairs(InsertPair(ps, r, key, val), n + 1)
  {
    InsertAt(ps, r, key, val);
  }

  lemma InsertedCell(w: nat, v: nat, ps: seq<Any>, m: nat, key: Object, val: Object, i: nat)
    requires i != m && Bit(v, m) && (Bit(v, i) <==> Bit(w, i))
    requires Rank(v, i) == Rank(w, i) + (if m < i then 1 else 0) && Rank(v, m) == Rank(w, m)
    requires GoodPairs(ps, Rank(w, 32)) && Rank(w, m) <= Rank(w, 32)
    requires Bit(w, i) ==> Rank(w, i) < Rank(w, 32)
    ensures var qs := InsertPair(ps, Rank(w, m), key, val);
            && (Bit(v, i) ==> 2 * Rank(v, i) + 1 < |qs| && KeyAny(qs, Rank(v, i)).Obj?)
            && PairsCell(v, qs, i) == PairsCell(w, ps, i)
  {
    hide Bit, Rank, One, Or, Xor, And, InsertPair, KeyAny, ValAny;
    InsertAt(ps, Rank(w, m), key, val);
    if Bit(w, i) { RankApart(v, i, m); }
  }

  lemma RemoveGood(ps: seq<Any>, n: nat, r: nat)
    requires GoodPairs(ps, n + 1) && r <= n
    ensures GoodPairs(RemovePair(ps, r), n)
  {
    RemoveAt(ps, r);
  }

  /** Setting a clear position: the bits, and the ranks above it. */
  lemma FlipUp(w: nat, m: nat)
    requires w < One(32) && m < 32 && !Bit(w, m)
    ensures var v := Or(w, One(m));
            && v < One(32) && Bit(v, m) && Rank(v, 32) == Rank(w, 32) + 1
            && (forall k: nat :: k != m ==> Bit(v, k) == Bit(w, k))
            && (forall k: nat :: Rank(v, k) == Rank(w, k) + (if m < k then 1 else 0))
  {
    var v := Or(w, One(m));
    forall k: nat ensures Bit(v, k) == (Bit(w, k) || k == m) { BitOr(w, One(m), k); BitOne(m, k); }
    forall k | 32 <= k ensures !Bit(v, k) { NoHighBits(w, 32, k); }
    BoundedBits(v, 32);
    forall k: nat ensures Rank(v, k) == Rank(w, k) + (if m < k then 1 else 0) { RankFlip(w, v, m, k); }
  }

  lemma FlipDown(v: nat, m: nat)
    requires v < One(32) && m < 32 && Bit(v, m)
    ensures var w := Xor(v, One(m));
            && w < One(32) && !Bit(w, m) && Rank(v, 32) == Rank(w, 32) + 1
            && (forall k: nat :: k != m ==> Bit(v, k) == Bit(w, k))
            && (forall k: nat :: Rank(v, k) == Rank(w, k) + (if m < k then 1 else 0))
  {
    var w := Xor(v, One(m));
    forall k: nat ensures Bit(w, k) == (Bit(v, k) && k != m) { BitXor(v, One(m), k); BitOne(m, k); }
    forall k | 32 <= k ensures !Bit(w, k) { NoHighBits(v, 32, k); }
    BoundedBits(w, 32);
    forall k: nat ensures Rank(v, k) == Rank(w, k) + (if m < k then 1 else 0) { RankFlip(w, v, m, k); }
  }

  lemma Insert(n: Node, depth: nat, m: nat, key: Object, val: Object)
    requires n.Bitmap? && Shape(n, depth) && m < Width(depth) <= 32 && !Bit(n.bitmap, m)
    requires Rank(n.bitmap, 32) < 16
    ensures var r := Index(n.bitmap, m);
            CellUpdated(n, Bitmap(Or(n.bitmap, One(m)), InsertPair(n.pairs, r, key, val)), depth, m,
                        Leaf(Entry(key, val)))
  {
    hide Bit, Rank, One, Or, Xor, And;
    var r := Index(n.bitmap, m);
    var w, v := n.bitmap, Or(n.bitmap, One(m));
    FlipUp(w, m);
    var ps := InsertPair(n.pairs, r, key, val);
    InsertGood(n.pairs, Rank(w, 32), r, key, val);
    RankInside(w);
    RankInside(v);
    forall i | 0 <= i < 32 && i != m ensures PairsCell(v, ps, i) == PairsCell(w, n.pairs, i) {
      InsertedCell(w, v, n.pairs, m, key, val, i);
    }
    UpdatedFromPairs(n, Bitmap(v, ps), depth, m, Leaf(Entry(key, val)));
  }

  lemma Remove(n: Node, depth: nat, m: nat)
    requires n.Bitmap? && Shape(n, depth) && m < 32 && Bit(n.bitmap, m)
    ensures var r := Index(n.bitmap, m);
            CellUpdated(n, Bitmap(Xor(n.bitmap, One(m)), RemovePair(n.pairs, r)), depth, m, Vacant)
  {
    hide Bit, Rank, One, Or, Xor, And;
    var r := Index(n.bitmap, m);
    var v, w := n.bitmap, Xor(n.bitmap, One(m));
    FlipDown(v, m);
    var ps := RemovePair(n.pairs, r);
    RemoveGood(n.pairs, Rank(w, 32), r);
    RemoveAt(n.pairs, r);
    RankInside(w);
    RankInside(v);
    BitBelowWidth(n, depth, m);
    forall i | 0 <= i < 32 && i != m ensures PairsCell(w, ps, i) == PairsCell(v, n.pairs, i) {
      if Bit(v, i) { RankApart(v, i, m); }
    }
    UpdatedFromPairs(n, Bitmap(w, ps), depth, m, Vacant);
  }

  // ---- array nodes ----

  lemma {:induction false} OccupiedUpdate(s: seq<Slot>, m: nat, x: Slot, i: nat)
    requires m < |s| && i <= |s|
    ensures Occupied(s[m := x], i) ==
            Occupied(s, i) + (if m < i then (if x.Slot? then 1 else 0) - (if s[m].Slot? then 1 else 0) else 0)
  {
    if i > 0 { OccupiedUpdate(s, m, x, i - 1); }
  }

  lemma {:induction false} OccupiedBound(s: seq<Slot>, m: nat, i: nat)
    requires m < i <= |s| && s[m].Slot?
    ensures 1 <= Occupied(s, i)
  {
    if m < i - 1 { OccupiedBound(s, m, i - 1); }
  }

  lemma SetSlot(n: Node, depth: nat, m: nat, x: Slot, count: int)
    requires n.Array? && Shape(n, depth) && m < 32
    requires count == n.count + (if x.Slot? then 1 else 0) - (if n.slots[m].Slot? then 1 else 0)
    requires 8 <= count
    ensures CellUpdated(n, Array(count, n.slots[m := x]), depth, m, SlotCell(x))
  {
    OccupiedUpdate(n.slots, m, x, 32);
  }

  // ---- expansion: sixteen pairs become slots, leaves are pushed one level down ----

  /** `emptyIndexedNode.assoc(shift, hash, key, val, _)`. */
  function Single(shift: nat, hash: Hash, key: Object, val: Object): Node {
    Bitmap(Or(0, One(Mask(hash, shift))), [Obj(key), Obj(val)])
  }

  function ExpandedSlot(n: Node, shift: nat, i: nat): Slot
    requires n.Bitmap? && i < 32 && n.bitmap < One(32) && |n.pairs| == 2 * Rank(n.bitmap, 32)
    requires forall j | 0 <= j < Rank(n.bitmap, 32) :: KeyAny(n.pairs, j).Obj?
  {
    if !Bit(n.bitmap, i) then NoSlot else
      RankMono(n.bitmap, i, 32);
      var j := Rank(n.bitmap, i);
      match ValAny(n.pairs, j)
      case Sub(node) => Slot(node)
      case Obj(v) => Slot(Single(shift + 5, HashEq(KeyAny(n.pairs, j).o), KeyAny(n.pairs, j).o, v))
  }

  function Expanded(n: Node, shift: nat, jdx: nat, leaf: Node): (s: seq<Slot>)
    requires n.Bitmap? && jdx < 32 && n.bitmap < One(32) && |n.pairs| == 2 * Rank(n.bitmap, 32)
    requires forall j | 0 <= j < Rank(n.bitmap, 32) :: KeyAny(n.pairs, j).Obj?
    ensures |s| == 32
  {
    seq(32, i requires 0 <= i < 32 => if i == jdx then Slot(leaf) else ExpandedSlot(n, shift, i))
  }

  /** The expansion loop of `assoc`: `j` walks the pair array while `i` walks the bitmap. */
  method ExpandLoop(n: Node, shift: nat, jdx: nat, leaf: Node) returns (nodes: array<Slot>)
    requires n.Bitmap? && jdx < 32 && n.bitmap < One(32) && |n.pairs| == 2 * Rank(n.bitmap, 32)
    requires forall j | 0 <= j < Rank(n.bitmap, 32) :: KeyAny(n.pairs, j).Obj?
    requires !Bit(n.bitmap, jdx)
    ensures nodes[..] == Expanded(n, shift, jdx, leaf)
  {
    hide Bit, One;
    nodes := new Slot[32](_ => NoSlot);
    nodes[jdx] := Slot(leaf);
    ghost var spec := Expanded(n, shift, jdx, leaf);
    var j, i, rest := 0, 0, n.bitmap;
    while i < 32
      invariant 0 <= i <= 32 && j == 2 * Rank(n.bitmap, i) && rest == Shr(n.bitmap, i)
      invariant forall k | 0 <= k < 32 :: nodes[k] == if k < i || k == jdx then spec[k] else NoSlot
    {
      RankMono(n.bitmap, i, 32);
      ShrBit(n.bitmap, i);
      ShrStep(n.bitmap, i, 1);
      if rest % 2 != 0 {
        assert n.pairs[j] == KeyAny(n.pairs, Rank(n.bitmap, i)) && n.pairs[j + 1] == ValAny(n.pairs, Rank(n.bitmap, i));
        match n.pairs[j + 1] {
          case Sub(node) => nodes[i] := Slot(node);
          case Obj(v) => nodes[i] := Slot(Single(shift + 5, HashEq(n.pairs[j].o), n.pairs[j].o, v));
        }
        j := j + 2;
      }
      rest := rest / 2;
      i := i + 1;
    }
    assert nodes[..] == spec;
  }

  lemma {:induction false} ShrBit(w: nat, i: nat)
    ensures Bit(w, i) <==> Shr(w, i) % 2 == 1
  {
    if i > 0 { ShrBit(w / 2, i - 1); }
  }

  lemma {:induction false} OccupiedExpanded(n: Node, shift: nat, jdx: nat, leaf: Node, i: nat)
    requires n.Bitmap? && jdx < 32 && n.bitmap < One(32) && |n.pairs| == 2 * Rank(n.bitmap, 32)
    requires forall j | 0 <= j < Rank(n.bitmap, 32) :: KeyAny(n.pairs, j).Obj?
    requires !Bit(n.bitmap, jdx) && i <= 32
    ensures Occupied(Expanded(n, shift, jdx, leaf), i) == Rank(n.bitmap, i) + (if jdx < i then 1 else 0)
  {
    if i > 0 { OccupiedExpanded(n, shift, jdx, leaf, i - 1); }
  }

  // ---- packing: the remaining slots become pairs ----

  function PackedBitmap(s: seq<Slot>, idx: nat, i: nat): nat
    requires i <= |s|
  {
    if i == 0 then 0
    else if i - 1 != idx && s[i - 1].Slot? then Or(PackedBitmap(s, idx, i - 1), One(i - 1))
    else PackedBitmap(s, idx, i - 1)
  }

  function PackedPairs(s: seq<Slot>, idx: nat, i: nat): seq<Any>
    requires i <= |s|
  {
    if i == 0 then []
    else if i - 1 != idx && s[i - 1].Slot? then PackedPairs(s, idx, i - 1) + [Obj(Nil), Sub(s[i - 1].node)]
    else PackedPairs(s, idx, i - 1)
  }

  function Pack(s: seq<Slot>, idx: nat): Node {
    Bitmap(PackedBitmap(s, idx, |s|), PackedPairs(s, idx, |s|))
  }

  lemma {:induction false} PackedLength(s: seq<Slot>, idx: nat, i: nat)
    requires i <= |s| && idx < |s| && s[idx].Slot?
    ensures |PackedPairs(s, idx, i)| == 2 * (Occupied(s, i) - (if idx < i then 1 else 0))
  {
    if i > 0 { PackedLength(s, idx, i - 1); }
  }

  lemma {:induction false} OccupiedMono(s: seq<Slot>, i: nat, j: nat)
    requires i <= j <= |s|
    ensures Occupied(s, i) <= Occupied(s, j)
  {
    if i < j { OccupiedMono(s, i, j - 1); }
  }

  /** The pairs packed so far, the rest of the array still nil. */
  ghost predicate PackedSoFar(a: seq<Any>, done: seq<Any>) {
    done <= a && forall k | |done| <= k < |a| :: a[k] == Obj(Nil)
  }

  lemma PackedMore(a: seq<Any>, done: seq<Any>, node: Node)
    requires PackedSoFar(a, done) && |done| + 1 < |a|
    ensures PackedSoFar(a[|done| + 1 := Sub(node)], done + [Obj(Nil), Sub(node)])
  {}

  /** The two loops of `pack`: they never overrun an array sized by the stored count. */
  method PackLoop(n: Node, idx: nat) returns (p: Node)
    requires n.Array? && |n.slots| == 32 && n.count == Occupied(n.slots, 32)
    requires idx < 32 && n.slots[idx].Slot?
    ensures p == Pack(n.slots, idx)
  {
    var s := n.slots;
    PackedLength(s, idx, 32);
    var newArray := new Any[2 * (n.count - 1)](_ => Obj(Nil));
    var j, bitmap, i := 1, 0, 0;
    while i < idx
      invariant 0 <= i <= idx
      invariant j == |PackedPairs(s, idx, i)| + 1 && bitmap == PackedBitmap(s, idx, i)
      invariant PackedSoFar(newArray[..], PackedPairs(s, idx, i))
    {
      PackedLength(s, idx, i);
      PackedLength(s, idx, i + 1);
      OccupiedMono(s, i + 1, idx);
      OccupiedMono(s, idx + 1, 32);
      if s[i].Slot? {
        PackedMore(newArray[..], PackedPairs(s, idx, i), s[i].node);
        ghost var before := newArray[..];
        newArray[j] := Sub(s[i].node);
        assert newArray[..] == before[j := Sub(s[i].node)];
        bitmap := Or(bitmap, One(i));
        j := j + 2;
      }
      i := i + 1;
    }
    i := idx + 1;
    while i < 32
      invariant idx + 1 <= i <= 32
      invariant j == |PackedPairs(s, idx, i)| + 1 && bitmap == PackedBitmap(s, idx, i)
      invariant PackedSoFar(newArray[..], PackedPairs(s, idx, i))
    {
      PackedLength(s, idx, i);
      PackedLength(s, idx, i + 1);
      OccupiedMono(s, i + 1, 32);
      if s[i].Slot? {
        PackedMore(newArray[..], PackedPairs(s, idx, i), s[i].node);
        ghost var before := newArray[..];
        newArray[j] := Sub(s[i].node);
        assert newArray[..] == before[j := Sub(s[i].node)];
        bitmap := Or(bitmap, One(i));
        j := j + 2;
      }
      i := i + 1;
    }
    p := Bitmap(bitmap, newArray[..]);
  }

  lemma {:induction false} PackedBits(s: seq<Slot>, idx: nat, i: nat, k: nat)
    requires i <= |s|
    ensures Bit(PackedBitmap(s, idx, i), k) <==> k < i && k != idx && s[k].Slot?
  {
    if i == 0 {
      ZeroBits(k);
    } else {
      PackedBits(s, idx, i - 1, k);
      BitOr(PackedBitmap(s, idx, i - 1), One(i - 1), k);
      BitOne(i - 1, k);
    }
  }

  lemma {:induction false} PackedRank(s: seq<Slot>, idx: nat, i: nat)
    requires i <= |s|
    ensures 2 * Rank(PackedBitmap(s, idx, |s|), i) == |PackedPairs(s, idx, i)|
    ensures PackedPairs(s, idx, i) <= PackedPairs(s, idx, |s|)
  {
    PackedPrefix(s, idx, i, |s|);
    if i > 0 {
      PackedRank(s, idx, i - 1);
      PackedBits(s, idx, |s|, i - 1);
    }
  }

  lemma {:induction false} PackedPrefix(s: seq<Slot>, idx: nat, i: nat, j: nat)
    requires i <= j <= |s|
    ensures PackedPairs(s, idx, i) <= PackedPairs(s, idx, j)
  {
    if i < j { PackedPrefix(s, idx, i, j - 1); }
  }

  lemma {:induction false} PackedShape(s: seq<Slot>, idx: nat, i: nat, j: nat)
    requires i <= |s| && 2 * j < |PackedPairs(s, idx, i)|
    ensures 2 * j + 1 < |PackedPairs(s, idx, i)|
    ensures PackedPairs(s, idx, i)[2 * j] == Obj(Nil)
  {
    if 2 * j < |PackedPairs(s, idx, i - 1)| { PackedShape(s, idx, i - 1, j); PackedPrefix(s, idx, i - 1, i); }
    else { PackedEven(s, idx, i - 1); }
  }

  lemma {:induction false} PackedEven(s: seq<Slot>, idx: nat, i: nat)
    requires i <= |s|
    ensures |PackedPairs(s, idx, i)| % 2 == 0
  {
    if i > 0 { PackedEven(s, idx, i - 1); }
  }

  lemma PackCells(n: Node, depth: nat, idx: nat)
    requires n.Array? && Shape(n, depth) && idx < 32 && n.slots[idx].Slot? && n.count <= 17
    ensures CellUpdated(n, Pack(n.slots, idx), depth, idx, Vacant)
  {
    var s := n.slots;
    var p := Pack(s, idx);
    forall k: nat ensures Bit(p.bitmap, k) <==> k < 32 && k != idx && s[k].Slot? { PackedBits(s, idx, 32, k); }
    BoundedBits(p.bitmap, 32);
    PackedRank(s, idx, 32);
    PackedLength(s, idx, 32);
    forall j | 0 <= j < Rank(p.bitmap, 32) ensures KeyAny(p.pairs, j) == Obj(Nil) { PackedShape(s, idx, 32, j); }
    RankInside(p.bitmap);
    forall i | 0 <= i < 32 && Bit(p.bitmap, i) ensures ValAny(p.pairs, Rank(p.bitmap, i)) == Sub(s[i].node) {
      PackedRank(s, idx, i);
      PackedRank(s, idx, i + 1);
    }
  }
}
