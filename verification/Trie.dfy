/**
 The nodes of the hash array mapped trie (`pkg/lang/persistenthashmap.go`) and their
 structural invariant.  `path` lists the 5-bit chunks of the hash consumed on the way to a
 node, so a node at `shift` sits at a path of length `shift / 5`.
 */
module Trie {
  import opened Words
  import opened Objects

  /** A cell of an `[]any` array: a user object, or a child node. */
  datatype Any = Obj(o: Object) | Sub(node: Node)

  datatype Slot = NoSlot | Slot(node: Node)

  datatype Node =
    | Bitmap(bitmap: nat, pairs: seq<Any>)
    | Array(count: int, slots: seq<Slot>)
    | Collision(hash: Hash, count: int, pairs: seq<Any>)

  const Empty := Bitmap(0, [])

  // ---- the hash path ----

  function Mask(hash: Hash, shift: nat): nat { And(Shr(hash, shift), 0x1f) }

  /** The mask takes the low five digits off the shifted hash. */
  lemma MaskSplit(hash: Hash, shift: nat)
    ensures Shr(hash, shift) == 32 * Shr(hash, shift + 5) + Mask(hash, shift)
    ensures Mask(hash, shift) < 32
  {
    ShrStep(hash, shift, 5);
    LowDigits(Shr(hash, shift), 5);
    assert One(5) == 32;
  }

  lemma {:induction false} LowDigits(w: nat, n: nat)
    ensures w == One(n) * Shr(w, n) + And(w, One(n) - 1)
    ensures And(w, One(n) - 1) < One(n)
  {
    if n > 0 {
      LowDigits(w / 2, n - 1);
      var p, x, low := One(n - 1), Shr(w / 2, n - 1), And(w / 2, One(n - 1) - 1);
      AndOdd(w, p - 1);
      Doubled(w, p, x, low);
    }
  }

  lemma AndOdd(w: nat, m: nat)
    ensures And(w, 2 * m + 1) == 2 * And(w / 2, m) + w % 2
  {}

  lemma Doubled(w: nat, p: nat, x: nat, low: nat)
    requires w / 2 == p * x + low && low < p
    ensures w == (2 * p) * x + (2 * low + w % 2) && 2 * low + w % 2 < 2 * p
  {
    assert (2 * p) * x == 2 * (p * x);
  }

  predicate OnPath(h: Hash, path: seq<nat>) {
    forall d :: 0 <= d < |path| ==> Mask(h, 5 * d) == path[d]
  }

  lemma {:induction false} ShrSmall(w: nat, k: nat, s: nat)
    requires w < One(k + s)
    ensures Shr(w, s) < One(k)
  {
    if s > 0 { ShrSmall(w / 2, k, s - 1); }
  }

  /** How many chunk values exist at a depth: 32, then the last two bits, then none. */
  function Width(depth: nat): nat { if depth <= 5 then 32 else if depth == 6 then 4 else 1 }

  lemma MaskWidth(h: Hash, depth: nat)
    ensures Mask(h, 5 * depth) < Width(depth) <= 32
  {
    MaskSplit(h, 5 * depth);
    assert One(32) == 0x1_0000_0000 by { One32(); }
    if depth == 6 { ShrSmall(h, 2, 30); }
    else if depth > 6 { OneMono(32, 5 * depth); ShrSmall(h, 0, 5 * depth); }
  }

  lemma One32()
    ensures One(32) == 0x1_0000_0000
  {
    assert One(8) == 256;
    assert One(16) == 256 * One(8) by { OneAdd(8, 8); }
    assert One(32) == One(16) * One(16) by { OneAdd(16, 16); }
  }

  lemma {:induction false} OneAdd(a: nat, b: nat)
    ensures One(a + b) == One(a) * One(b)
  {
    if a > 0 { OneAdd(a - 1, b); }
  }

  lemma {:induction false} OneMono(a: nat, b: nat)
    requires a <= b
    ensures One(a) <= One(b)
  {
    if a < b { OneMono(a, b - 1); }
  }

  /** Hashes that agree on the chunks of a path and above it are equal. */
  lemma {:induction false} SameShr(g: Hash, h: Hash, path: seq<nat>)
    requires OnPath(g, path) && OnPath(h, path)
    requires Shr(g, 5 * |path|) == Shr(h, 5 * |path|)
    ensures g == h
  {
    if |path| > 0 {
      var d := |path| - 1;
      forall w: Hash ensures Shr(w, 5 * d) == 32 * Shr(w, 5 * |path|) + Mask(w, 5 * d) {
        MaskSplit(w, 5 * d);
      }
      assert Mask(g, 5 * d) == path[d] == Mask(h, 5 * d);
      SameShr(g, h, path[..d]);
    }
  }

  /** Two different hashes differ in one of the first seven chunks. */
  lemma DifferentHashesPart(g: Hash, h: Hash, path: seq<nat>)
    requires OnPath(g, path) && OnPath(h, path) && g != h
    ensures |path| <= 6
  {
    if |path| >= 7 {
      One32();
      OneMono(32, 5 * |path|);
      ShrSmall(g, 0, 5 * |path|);
      ShrSmall(h, 0, 5 * |path|);
      SameShr(g, h, path);
    }
  }

  lemma OnPathStep(h: Hash, path: seq<nat>)
    requires OnPath(h, path)
    ensures OnPath(h, path + [Mask(h, 5 * |path|)])
  {}

  // ---- cells: what a bitmap or array node holds at a chunk value ----

  datatype Cell = Vacant | Leaf(entry: Entry) | Child(node: Node)

  /** The two cells of entry `j` of a pair array. */
  function KeyAny(ps: seq<Any>, j: nat): Any
    requires 2 * j + 1 < |ps|
  { ps[2 * j] }

  function ValAny(ps: seq<Any>, j: nat): (v: Any)
    requires 2 * j + 1 < |ps|
    ensures v in ps
  { ps[2 * j + 1] }

  predicate Shape(n: Node, depth: nat) {
    match n
    case Bitmap(bitmap, pairs) =>
      && depth <= 6
      && bitmap < One(32)
      && (forall i | Width(depth) <= i < 32 :: !Bit(bitmap, i))
      && Rank(bitmap, 32) <= 16
      && |pairs| == 2 * Rank(bitmap, 32)
      && forall j | 0 <= j < Rank(bitmap, 32) ::
           KeyAny(pairs, j).Obj? && (ValAny(pairs, j).Sub? ==> KeyAny(pairs, j) == Obj(Nil))
    case Array(count, slots) =>
      depth <= 5 && |slots| == 32 && count == Occupied(slots, 32) && 8 <= count
    case Collision(hash, count, pairs) =>
      && 1 <= depth <= 7 && count >= 1 && |pairs| == 2 * count
      && forall j | 0 <= j < count :: KeyAny(pairs, j).Obj? && ValAny(pairs, j).Obj?
  }

  /** The number of non-nil slots below `i`. */
  function Occupied(slots: seq<Slot>, i: nat): nat
    requires i <= |slots|
  {
    if i == 0 then 0 else Occupied(slots, i - 1) + (if slots[i - 1].Slot? then 1 else 0)
  }

  function PairCell(key: Any, val: Any): Cell
    requires key.Obj?
  {
    match val
    case Sub(n) => Child(n)
    case Obj(v) => Leaf(Entry(key.o, v))
  }

  function SlotCell(s: Slot): Cell { match s case NoSlot => Vacant case Slot(n) => Child(n) }

  function CellAt(n: Node, i: nat, ghost depth: nat): (c: Cell)
    requires !n.Collision? && Shape(n, depth) && i < 32
    ensures c.Child? ==> c.node < n
  {
    match n
    case Bitmap(bitmap, pairs) =>
      RankMono(bitmap, i, 32);
      if Bit(bitmap, i) then PairCell(KeyAny(pairs, Rank(bitmap, i)), ValAny(pairs, Rank(bitmap, i)))
      else Vacant
    case Array(_, slots) => SlotCell(slots[i])
  }

  function CollisionKey(n: Node, j: nat): Object
    requires n.Collision? && j < n.count && |n.pairs| == 2 * n.count && KeyAny(n.pairs, j).Obj?
  { KeyAny(n.pairs, j).o }

  function CollisionVal(n: Node, j: nat): Any
    requires n.Collision? && j < n.count && |n.pairs| == 2 * n.count
  { ValAny(n.pairs, j) }

  /**
   The structural invariant of a node reached along `path`: the shape above, every key on its own
   hash path, and the keys of a collision node sharing one hash and pairwise different.
   */
  ghost predicate Inv(n: Node, path: seq<nat>)
    decreases n
  {
    && Shape(n, |path|)
    && match n
       case Collision(hash, count, pairs) =>
         && OnPath(hash, path)
         && (forall j | 0 <= j < count :: HashEq(CollisionKey(n, j)) == hash)
         && (forall i, j | 0 <= i < j < count :: !Equiv(CollisionKey(n, i), CollisionKey(n, j)))
       case _ =>
         forall i | 0 <= i < 32 ::
           match CellAt(n, i, |path|)
           case Vacant => true
           case Leaf(e) => OnPath(HashEq(e.key), path + [i])
           case Child(c) => Inv(c, path + [i])
  }

  ghost predicate CellInv(c: Cell, path: seq<nat>) {
    match c
    case Vacant => true
    case Leaf(e) => OnPath(HashEq(e.key), path)
    case Child(n) => Inv(n, path)
  }

  // ---- array surgery, one pair or slot at a time ----

  function CloneAndSet(pairs: seq<Any>, i: nat, a: Any): seq<Any>
    requires i < |pairs|
  { pairs[i := a] }

  function RemovePair(pairs: seq<Any>, n: nat): seq<Any>
    requires 2 * n + 2 <= |pairs|
  { pairs[..2 * n] + pairs[2 * (n + 1)..] }

  function InsertPair(pairs: seq<Any>, n: nat, key: Object, val: Object): seq<Any>
    requires 2 * n <= |pairs|
  { pairs[..2 * n] + [Obj(key), Obj(val)] + pairs[2 * n..] }

  lemma SetAt(ps: seq<Any>, r: nat, key: Any, val: Any)
    requires 2 * r + 1 < |ps|
    ensures var qs := ps[2 * r := key][2 * r + 1 := val];
            && KeyAny(qs, r) == key && ValAny(qs, r) == val
            && (forall j | 0 <= j && 2 * j + 1 < |ps| && j != r :: KeyAny(qs, j) == KeyAny(ps, j))
            && (forall j | 0 <= j && 2 * j + 1 < |ps| && j != r :: ValAny(qs, j) == ValAny(ps, j))
  {}

  lemma InsertAt(ps: seq<Any>, r: nat, key: Object, val: Object)
    requires 2 * r <= |ps| && |ps| % 2 == 0
    ensures var qs := InsertPair(ps, r, key, val);
            && |qs| == |ps| + 2 && KeyAny(qs, r) == Obj(key) && ValAny(qs, r) == Obj(val)
            && (forall j | 0 <= j < r :: KeyAny(qs, j) == KeyAny(ps, j) && ValAny(qs, j) == ValAny(ps, j))
            && (forall j | r < j && 2 * j + 1 < |qs| ::
                KeyAny(qs, j) == KeyAny(ps, j - 1) && ValAny(qs, j) == ValAny(ps, j - 1))
  {
    var qs := InsertPair(ps, r, key, val);
    forall j | 0 <= j < r ensures KeyAny(qs, j) == KeyAny(ps, j) && ValAny(qs, j) == ValAny(ps, j) {
      assert 2 * j + 1 < 2 * r;
    }
    forall j | r < j && 2 * j + 1 < |qs| ensures KeyAny(qs, j) == KeyAny(ps, j - 1) && ValAny(qs, j)
        == ValAny(ps, j - 1) {
      assert 2 * (j - 1) == 2 * j - 2 >= 2 * r;
    }
  }

  lemma RemoveAt(ps: seq<Any>, r: nat)
    requires 2 * r + 1 < |ps| && |ps| % 2 == 0
    ensures var qs := RemovePair(ps, r);
            && |qs| == |ps| - 2
            && (forall j | 0 <= j < r :: KeyAny(qs, j) == KeyAny(ps, j) && ValAny(qs, j) == ValAny(ps, j))
            && (forall j | r <= j && 2 * j + 1 < |qs| ::
                KeyAny(qs, j) == KeyAny(ps, j + 1) && ValAny(qs, j) == ValAny(ps, j + 1))
  {
    var qs := RemovePair(ps, r);
    forall j | 0 <= j < r ensures KeyAny(qs, j) == KeyAny(ps, j) && ValAny(qs, j) == ValAny(ps, j) {
      assert 2 * j + 1 < 2 * r;
    }
    forall j | r <= j && 2 * j + 1 < |qs| ensures KeyAny(qs, j) == KeyAny(ps, j + 1) && ValAny(qs, j)
        == ValAny(ps, j + 1) {
      assert 2 * (j + 1) == 2 * j + 2 && 2 * j >= 2 * r;
    }
  }

  /** The `removePair` loops. */
  method RemovePairLoop(src: array<Any>, n: nat) returns (newArray: array<Any>)
    requires 2 * n + 2 <= src.Length
    ensures fresh(newArray) && newArray[..] == RemovePair(src[..], n)
  {
    newArray := new Any[src.Length - 2](_ => Obj(Nil));
    ghost var spec := RemovePair(src[..], n);
    var i := 0;
    while i < 2 * n
      invariant 0 <= i <= 2 * n
      invariant forall k | 0 <= k < i :: newArray[k] == spec[k]
    {
      newArray[i] := src[i];
      i := i + 1;
    }
    i := 2 * (n + 1);
    while i < src.Length
      invariant 2 * (n + 1) <= i <= src.Length
      invariant forall k | 0 <= k < i - 2 :: newArray[k] == spec[k]
    {
      newArray[i - 2] := src[i];
      i := i + 1;
    }
    assert newArray[..] == spec;
  }

  /** The branch of `assoc` that adds a pair to a bitmap node. */
  method InsertPairLoop(src: array<Any>, idx: nat, n: nat, key: Object, val: Object)
    returns (newArray: array<Any>)
    requires idx <= n && src.Length == 2 * n
    ensures fresh(newArray) && newArray[..] == InsertPair(src[..], idx, key, val)
  {
    newArray := new Any[2 * (n + 1)](_ => Obj(Nil));
    ghost var spec := InsertPair(src[..], idx, key, val);
    var i := 0;
    while i < 2 * idx
      invariant 0 <= i <= 2 * idx
      invariant forall k | 0 <= k < i :: newArray[k] == spec[k]
    {
      newArray[i] := src[i];
      i := i + 1;
    }
    newArray[2 * idx] := Obj(key);
    newArray[2 * idx + 1] := Obj(val);
    i := 2 * idx;
    while i < 2 * n
      invariant 2 * idx <= i <= 2 * n
      invariant forall k | 0 <= k < i + 2 :: newArray[k] == spec[k]
    {
      newArray[i + 2] := src[i];
      i := i + 1;
    }
    assert newArray[..] == spec;
  }
}
