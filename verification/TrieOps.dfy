/**
 The node operations `find`, `assoc`, `createNode` and `without`.  Every operation keeps the
 structural invariant; it needs the invariant of its argument to stay inside the arrays and to
 terminate.  The source tells "unchanged" from "changed" by comparing node pointers; here a
 result is `Same` when the source returns its receiver.
 */
module TrieOps {
  import opened Words
  import opened Objects
  import opened Trie
  import opened TrieCells

  /** `Same`: the receiver itself; `Gone`: a nil node; `New`: a freshly allocated node. */
  datatype Change = Same | Gone | New(node: Node)

  datatype Assoced = Assoced(change: Change, added: bool)

  function After(c: Change, n: Node): Node
    requires !c.Gone?
  { if c.Same? then n else c.node }

  // ---- invariants from cells ----

  lemma InvOfCell(n: Node, path: seq<nat>, i: nat)
    requires Inv(n, path) && !n.Collision? && i < 32
    ensures CellInv(CellAt(n, i, |path|), path + [i])
  {}

  lemma UpdatedInv(n: Node, n': Node, path: seq<nat>, m: nat, c: Cell)
    requires Inv(n, path) && CellUpdated(n, n', |path|, m, c) && CellInv(c, path + [m])
    ensures Inv(n', path)
  {
    forall i | 0 <= i < 32 ensures CellInv(CellAt(n', i, |path|), path + [i]) { InvOfCell(n, path, i); }
  }

  lemma EmptyInv(path: seq<nat>)
    requires |path| <= 6
    ensures Inv(Empty, path)
  {
    forall i: nat ensures Rank(0, i) == 0 { ZeroRank(i); }
    forall i: nat ensures !Bit(0, i) { ZeroBits(i); }
  }

  lemma {:induction false} ZeroRank(i: nat)
    ensures Rank(0, i) == 0
  {
    if i > 0 { ZeroRank(i - 1); ZeroBits(i - 1); }
  }

  lemma SingleUpdated(hash: Hash, key: Object, val: Object, path: seq<nat>)
    requires |path| <= 6
    ensures CellUpdated(Empty, Single(5 * |path|, hash, key, val), |path|, Mask(hash, 5 * |path|),
            Leaf(Entry(key, val)))
  {
    hide Bit, One, Rank, Or, And, Shr;
    EmptyInv(path);
    MaskWidth(hash, |path|);
    ZeroRank(32);
    ZeroBits(Mask(hash, 5 * |path|));
    Insert(Empty, |path|, Mask(hash, 5 * |path|), key, val);
    assert InsertPair([], 0, key, val) == [Obj(key), Obj(val)];
  }

  lemma SingleInv(hash: Hash, key: Object, val: Object, path: seq<nat>)
    requires |path| <= 6 && OnPath(hash, path) && HashEq(key) == hash
    ensures Inv(Single(5 * |path|, hash, key, val), path)
  {
    SingleUpdated(hash, key, val, path);
    EmptyInv(path);
    OnPathStep(hash, path);
    UpdatedInv(Empty, Single(5 * |path|, hash, key, val), path, Mask(hash, 5 * |path|), Leaf(Entry(key, val)));
  }

  // ---- wrapping a collision node whose hash differs from the new key's ----

  function Wrapper(n: Node, shift: nat): Node
    requires n.Collision?
  { Bitmap(One(Mask(n.hash, shift)), [Obj(Nil), Sub(n)]) }

  lemma WrapperUpdated(n: Node, path: seq<nat>)
    requires n.Collision? && |path| <= 6
    ensures CellUpdated(Empty, Wrapper(n, 5 * |path|), |path|, Mask(n.hash, 5 * |path|), Child(n))
  {
    hide Bit, One, Rank, Or, Shr, And;
    var m := Mask(n.hash, 5 * |path|);
    EmptyInv(path);
    MaskWidth(n.hash, |path|);
    ZeroRank(32);
    ZeroBits(m);
    Insert(Empty, |path|, m, Nil, Nil);
    var b := Bitmap(Or(0, One(m)), [Obj(Nil), Obj(Nil)]);
    assert InsertPair([], 0, Nil, Nil) == [Obj(Nil), Obj(Nil)];
    OrZero(One(m));
    FlipUp(0, m);
    SetPair(b, |path|, m, Obj(Nil), Sub(n));
    ZeroRank(m);
    assert Index(b.bitmap, m) == 0;
    assert b.pairs[0 := Obj(Nil)][1 := Sub(n)] == [Obj(Nil), Sub(n)];
  }

  lemma {:induction false} OrZero(w: nat)
    ensures Or(0, w) == w
  {
    if w > 0 { OrZero(w / 2); }
  }

  lemma WrapperInv(n: Node, hash: Hash, path: seq<nat>)
    requires n.Collision? && Inv(n, path) && OnPath(hash, path) && hash != n.hash
    ensures |path| <= 6 && Inv(Wrapper(n, 5 * |path|), path)
  {
    DifferentHashesPart(n.hash, hash, path);
    WrapperUpdated(n, path);
    EmptyInv(path);
    var m := Mask(n.hash, 5 * |path|);
    OnPathStep(n.hash, path);
    assert Inv(n, path + [m]);
    UpdatedInv(Empty, Wrapper(n, 5 * |path|), path, m, Child(n));
  }

  // ---- collision nodes ----

  /** What the `findIndex` loop returns from position `i` on, as an entry number; -1 when absent. */
  function FindFrom(n: Node, key: Object, i: nat): (r: int)
    requires n.Collision? && i <= n.count && |n.pairs| == 2 * n.count
    requires forall j | 0 <= j < n.count :: KeyAny(n.pairs, j).Obj?
    ensures r == -1 || i <= r < n.count
    ensures r != -1 ==> Equiv(key, CollisionKey(n, r))
    ensures forall j | i <= j < (if r == -1 then n.count else r) :: !Equiv(key, CollisionKey(n, j))
    decreases n.count - i
  {
    if i == n.count then -1
    else if Equiv(key, CollisionKey(n, i)) then i
    else FindFrom(n, key, i + 1)
  }

  method FindIndex(n: Node, key: Object) returns (r: int)
    requires n.Collision? && |n.pairs| == 2 * n.count
    requires forall j | 0 <= j < n.count :: KeyAny(n.pairs, j).Obj?
    ensures r == if FindFrom(n, key, 0) == -1 then -1 else 2 * FindFrom(n, key, 0)
  {
    var i := 0;
    while i < 2 * n.count
      invariant i % 2 == 0 && 0 <= i <= 2 * n.count
      invariant FindFrom(n, key, 0) == FindFrom(n, key, i / 2)
    {
      assert n.pairs[i] == KeyAny(n.pairs, i / 2);
      if Equiv(key, n.pairs[i].o) { return i; }
      i := i + 2;
    }
    return -1;
  }

  // ---- find ----

  function Find(n: Node, shift: nat, hash: Hash, key: Object, ghost path: seq<nat>): Option<Entry>
    requires Inv(n, path) && shift == 5 * |path|
    decreases n
  {
    match n
    case Bitmap(bitmap, pairs) =>
      MaskWidth(hash, |path|);
      var m := Mask(hash, shift);
      TestBit(bitmap, m);
      if And(bitmap, One(m)) == 0 then None else
        var idx := Index(bitmap, m);
        InvOfCell(n, path, m);
        match ValAny(pairs, idx) {
          case Sub(child) => Find(child, shift + 5, hash, key, path + [m])
          case Obj(v) => if Equiv(key, KeyAny(pairs, idx).o) then Some(Entry(KeyAny(pairs, idx).o, v)) else None
        }
    case Array(_, slots) =>
      MaskWidth(hash, |path|);
      var m := Mask(hash, shift);
      InvOfCell(n, path, m);
      (match slots[m]
       case NoSlot => None
       case Slot(child) => Find(child, shift + 5, hash, key, path + [m]))
    case Collision(_, _, pairs) =>
      var i := FindFrom(n, key, 0);
      if i == -1 then None else Some(Entry(KeyAny(pairs, i).o, ValAny(pairs, i).o))
  }

  // ---- assoc ----

  lemma FewBits(n: Node, depth: nat)
    requires n.Bitmap? && Shape(n, depth) && Rank(n.bitmap, 32) >= 16
    ensures depth <= 5
  {
    hide Bit, One;
    if depth == 6 { RankTail(n.bitmap, 4, 32); RankMono(n.bitmap, 0, 4); }
  }

  lemma ExpandedInv(n: Node, path: seq<nat>, hash: Hash, key: Object, val: Object)
    requires n.Bitmap? && Inv(n, path) && OnPath(hash, path) && HashEq(key) == hash
    requires Rank(n.bitmap, 32) >= 16 && !Bit(n.bitmap, Mask(hash, 5 * |path|))
    ensures |path| <= 5 && Mask(hash, 5 * |path|) < 32
    ensures var m := Mask(hash, 5 * |path|);
            var slots := Expanded(n, 5 * |path|, m, Single(5 * |path| + 5, hash, key, val));
            Inv(Array(Rank(n.bitmap, 32) + 1, slots), path)
  {
    hide Bit, One, Rank;
    FewBits(n, |path|);
    MaskWidth(hash, |path|);
    var m := Mask(hash, 5 * |path|);
    var leaf := Single(5 * |path| + 5, hash, key, val);
    var slots := Expanded(n, 5 * |path|, m, leaf);
    OccupiedExpanded(n, 5 * |path|, m, leaf, 32);
    var a := Array(Rank(n.bitmap, 32) + 1, slots);
    forall i | 0 <= i < 32 ensures CellInv(CellAt(a, i, |path|), path + [i]) {
      if i == m {
        OnPathStep(hash, path);
        SingleInv(hash, key, val, path + [m]);
      } else {
        InvOfCell(n, path, i);
        match CellAt(n, i, |path|)
        case Leaf(e) => SingleInv(HashEq(e.key), e.key, e.val, path + [i]);
        case _ =>
      }
    }
  }

  lemma CollisionSetInv(n: Node, path: seq<nat>, i: nat, val: Object)
    requires n.Collision? && Inv(n, path) && i < n.count
    ensures var n' := Collision(n.hash, n.count, CloneAndSet(n.pairs, 2 * i + 1, Obj(val)));
            && Inv(n', path)
            && (forall j | 0 <= j < n.count :: CollisionKey(n', j) == CollisionKey(n, j))
            && (forall j | 0 <= j < n.count :: CollisionVal(n', j) == if j == i then Obj(val) else CollisionVal(n, j))
  {
    var n' := Collision(n.hash, n.count, CloneAndSet(n.pairs, 2 * i + 1, Obj(val)));
    assert n.pairs[2 * i := KeyAny(n.pairs, i)] == n.pairs;
    SetAt(n.pairs, i, KeyAny(n.pairs, i), Obj(val));
    forall j | 0 <= j < n.count ensures CollisionKey(n', j) == CollisionKey(n, j) {}
  }

  lemma CollisionAddInv(n: Node, path: seq<nat>, key: Object, val: Object)
    requires n.Collision? && Inv(n, path) && HashEq(key) == n.hash
    requires FindFrom(n, key, 0) == -1
    ensures var n' := Collision(n.hash, n.count + 1, n.pairs + [Obj(key), Obj(val)]);
            && Inv(n', path)
            && (forall j | 0 <= j < n.count ::
                CollisionKey(n', j) == CollisionKey(n, j) && CollisionVal(n', j) == CollisionVal(n, j))
            && CollisionKey(n', n.count) == key && CollisionVal(n', n.count) == Obj(val)
  {
    var n' := Collision(n.hash, n.count + 1, n.pairs + [Obj(key), Obj(val)]);
    assert InsertPair(n.pairs, n.count, key, val) == n.pairs + [Obj(key), Obj(val)];
    InsertAt(n.pairs, n.count, key, val);
    forall j | 0 <= j < n.count ensures CollisionKey(n', j) == CollisionKey(n, j) {}
    assert CollisionKey(n', n.count) == key;
    forall j | 0 <= j < n.count ensures !Equiv(CollisionKey(n', j), key) {
      EquivSameId(CollisionKey(n, j), key);
      EquivSameId(key, CollisionKey(n, j));
    }
  }

  // ---- the nodes an operation allocates ----

  function BitmapSet(n: Node, m: nat, val: Any, ghost path: seq<nat>): (n': Node)
    requires n.Bitmap? && Inv(n, path) && m < 32 && Bit(n.bitmap, m)
    requires val.Sub? ==> KeyAny(n.pairs, Index(n.bitmap, m)) == Obj(Nil)
    requires CellInv(PairCell(KeyAny(n.pairs, Index(n.bitmap, m)), val), path + [m])
    ensures Inv(n', path) && CellUpdated(n, n', |path|, m, PairCell(KeyAny(n.pairs, Index(n.bitmap, m)), val))
  {
    var n' := Bitmap(n.bitmap, CloneAndSet(n.pairs, 2 * Index(n.bitmap, m) + 1, val));
    SetVal(n, |path|, m, val);
    UpdatedInv(n, n', path, m, PairCell(KeyAny(n.pairs, Index(n.bitmap, m)), val));
    n'
  }

  function BitmapSplit(n: Node, m: nat, child: Node, ghost path: seq<nat>): (n': Node)
    requires n.Bitmap? && Inv(n, path) && m < 32 && Bit(n.bitmap, m) && Inv(child, path + [m])
    ensures Inv(n', path) && CellUpdated(n, n', |path|, m, Child(child))
  {
    var idx := Index(n.bitmap, m);
    var n' := Bitmap(n.bitmap, n.pairs[2 * idx := Obj(Nil)][2 * idx + 1 := Sub(child)]);
    SetPair(n, |path|, m, Obj(Nil), Sub(child));
    UpdatedInv(n, n', path, m, Child(child));
    n'
  }

  function BitmapInsert(n: Node, m: nat, key: Object, val: Object, ghost path: seq<nat>): (n': Node)
    requires n.Bitmap? && Inv(n, path) && m < Width(|path|) <= 32 && !Bit(n.bitmap, m) && Rank(n.bitmap, 32) < 16
    requires OnPath(HashEq(key), path + [m])
    ensures Inv(n', path) && CellUpdated(n, n', |path|, m, Leaf(Entry(key, val)))
  {
    var n' := Bitmap(Or(n.bitmap, One(m)), InsertPair(n.pairs, Index(n.bitmap, m), key, val));
    Insert(n, |path|, m, key, val);
    UpdatedInv(n, n', path, m, Leaf(Entry(key, val)));
    n'
  }

  function BitmapRemove(n: Node, m: nat, ghost path: seq<nat>): (n': Node)
    requires n.Bitmap? && Inv(n, path) && m < 32 && Bit(n.bitmap, m)
    ensures Inv(n', path) && CellUpdated(n, n', |path|, m, Vacant)
  {
    var n' := Bitmap(Xor(n.bitmap, One(m)), RemovePair(n.pairs, Index(n.bitmap, m)));
    Remove(n, |path|, m);
    UpdatedInv(n, n', path, m, Vacant);
    n'
  }

  function ArraySet(n: Node, count: int, m: nat, x: Slot, ghost path: seq<nat>): (n': Node)
    requires n.Array? && Inv(n, path) && m < 32 && 8 <= count && CellInv(SlotCell(x), path + [m])
    requires count == n.count + (if x.Slot? then 1 else 0) - (if n.slots[m].Slot? then 1 else 0)
    ensures Inv(n', path) && CellUpdated(n, n', |path|, m, SlotCell(x))
  {
    SetSlot(n, |path|, m, x, count);
    UpdatedInv(n, Array(count, n.slots[m := x]), path, m, SlotCell(x));
    Array(count, n.slots[m := x])
  }

  /** What position `m` of a bitmap node holds. */
  lemma BitmapCell(n: Node, m: nat, path: seq<nat>)
    requires n.Bitmap? && Inv(n, path) && m < 32
    ensures |path| <= 6 && n.bitmap < One(32) && Shape(n, |path|)
    ensures CellInv(CellAt(n, m, |path|), path + [m])
    ensures !Bit(n.bitmap, m) ==> CellAt(n, m, |path|) == Vacant
    ensures Bit(n.bitmap, m) ==>
              var idx := Index(n.bitmap, m);
              && 2 * idx + 1 < |n.pairs| && KeyAny(n.pairs, idx).Obj?
              && CellAt(n, m, |path|) == PairCell(KeyAny(n.pairs, idx), ValAny(n.pairs, idx))
              && (ValAny(n.pairs, idx).Sub? ==> KeyAny(n.pairs, idx) == Obj(Nil))
  {
    InvOfCell(n, path, m);
  }

  /** What slot `m` of an array node holds. */
  lemma ArrayCell(n: Node, m: nat, path: seq<nat>)
    requires n.Array? && Inv(n, path) && m < 32
    ensures |path| <= 5 && |n.slots| == 32 && 8 <= n.count && Shape(n, |path|)
    ensures CellAt(n, m, |path|) == SlotCell(n.slots[m])
    ensures CellInv(CellAt(n, m, |path|), path + [m])
  {
    InvOfCell(n, path, m);
  }

  function {:induction false} Assoc(n: Node, shift: nat, hash: Hash, key: Object, val: Object,
          ghost path: seq<nat>): (r: Assoced)
    requires Inv(n, path) && shift == 5 * |path| && OnPath(hash, path) && HashEq(key) == hash
    ensures !r.change.Gone? && Inv(After(r.change, n), path)
    decreases 35 - shift, 4
  {
    match n
    case Bitmap(_, _) => AssocBitmap(n, shift, hash, key, val, path)
    case Array(_, _) => AssocArray(n, shift, hash, key, val, path)
    case Collision(_, _, _) => AssocCollision(n, shift, hash, key, val, path)
  }

  function {:induction false} AssocBitmap(n: Node, shift: nat, hash: Hash, key: Object, val: Object,
          ghost path: seq<nat>): (r: Assoced)
    requires n.Bitmap? && Inv(n, path) && shift == 5 * |path| && OnPath(hash, path) && HashEq(key) == hash
    ensures !r.change.Gone? && Inv(After(r.change, n), path)
    decreases 35 - shift, 0
  {
    hide Bit, One, Rank, Or;
    MaskWidth(hash, |path|);
    OnPathStep(hash, path);
    var m := Mask(hash, shift);
    TestBit(n.bitmap, m);
    if And(n.bitmap, One(m)) != 0 then
      var idx := Index(n.bitmap, m);
      BitmapCell(n, m, path);
      match ValAny(n.pairs, idx) {
        case Sub(child) =>
          var r := Assoc(child, shift + 5, hash, key, val, path + [m]);
          if r.change.Same? then Assoced(Same, r.added)
          else Assoced(New(BitmapSet(n, m, Sub(r.change.node), path)), r.added)
        case Obj(v) =>
          var keyOrNull := KeyAny(n.pairs, idx).o;
          if Equiv(key, keyOrNull) then
            if Identical(val, v) then Assoced(Same, false)
            else Assoced(New(BitmapSet(n, m, Obj(val), path)), false)
          else
            var child := CreateNode(shift + 5, keyOrNull, v, hash, key, val, path + [m]);
            Assoced(New(BitmapSplit(n, m, child, path)), true)
      }
    else Assoced(New(AddPair(n, shift, m, hash, key, val, path)), true)
  }

  /** The other branch of the bitmap node's `assoc`: expansion at sixteen entries, or one more pair. */
  function AddPair(n: Node, shift: nat, m: nat, hash: Hash, key: Object, val: Object, ghost path: seq<nat>): (n': Node)
    requires n.Bitmap? && Inv(n, path) && shift == 5 * |path| && OnPath(hash, path) && HashEq(key) == hash
    requires m == Mask(hash, shift) < Width(|path|) <= 32 && !Bit(n.bitmap, m)
    ensures Inv(n', path)
  {
    var count := BitCount(n.bitmap);
    CountIsRank(n.bitmap, 32);
    OnPathStep(hash, path);
    if count >= 16 then
      ExpandedInv(n, path, hash, key, val);
      Array(count + 1, Expanded(n, shift, m, Single(shift + 5, hash, key, val)))
    else BitmapInsert(n, m, key, val, path)
  }

  function {:induction false} AssocArray(n: Node, shift: nat, hash: Hash, key: Object, val: Object,
          ghost path: seq<nat>): (r: Assoced)
    requires n.Array? && Inv(n, path) && shift == 5 * |path| && OnPath(hash, path) && HashEq(key) == hash
    ensures !r.change.Gone? && Inv(After(r.change, n), path)
    decreases 35 - shift, 0
  {
    MaskWidth(hash, |path|);
    OnPathStep(hash, path);
    var m := Mask(hash, shift);
    InvOfCell(n, path, m);
    match n.slots[m]
    case NoSlot =>
      SingleInv(hash, key, val, path + [m]);
      Assoced(New(ArraySet(n, n.count + 1, m, Slot(Single(shift + 5, hash, key, val)), path)), true)
    case Slot(child) =>
      var r := Assoc(child, shift + 5, hash, key, val, path + [m]);
      if r.change.Same? then Assoced(Same, r.added)
      else Assoced(New(ArraySet(n, n.count, m, Slot(r.change.node), path)), r.added)
  }

  function {:induction false} AssocCollision(n: Node, shift: nat, hash: Hash, key: Object, val: Object,
          ghost path: seq<nat>): (r: Assoced)
    requires n.Collision? && Inv(n, path) && shift == 5 * |path| && OnPath(hash, path) && HashEq(key) == hash
    ensures !r.change.Gone? && Inv(After(r.change, n), path)
    decreases 35 - shift, 1
  {
    if hash == n.hash then
      var i := FindFrom(n, key, 0);
      if i != -1 then
        if Identical(ValAny(n.pairs, i).o, val) then Assoced(Same, false) else
          CollisionSetInv(n, path, i, val);
          Assoced(New(Collision(hash, n.count, CloneAndSet(n.pairs, 2 * i + 1, Obj(val)))), false)
      else
        CollisionAddInv(n, path, key, val);
        Assoced(New(Collision(hash, n.count + 1, n.pairs + [Obj(key), Obj(val)])), true)
    else
      WrapperInv(n, hash, path);
      var r := AssocBitmap(Wrapper(n, shift), shift, hash, key, val, path);
      Assoced(New(After(r.change, Wrapper(n, shift))), r.added)
  }

  lemma LeafSplitDepth(k1: Object, k2: Object, path: seq<nat>)
    requires OnPath(HashEq(k1), path) && OnPath(HashEq(k2), path)
    ensures HashEq(k1) != HashEq(k2) ==> |path| <= 6
  {
    if HashEq(k1) != HashEq(k2) { DifferentHashesPart(HashEq(k1), HashEq(k2), path); }
  }

  lemma CreatedCollisionInv(k1: Object, v1: Object, k2: Object, v2: Object, path: seq<nat>)
    requires HashEq(k1) == HashEq(k2) && OnPath(HashEq(k1), path) && 1 <= |path| <= 7 && !Equiv(k2, k1)
    ensures Inv(Collision(HashEq(k1), 2, [Obj(k1), Obj(v1), Obj(k2), Obj(v2)]), path)
  {
    var n := Collision(HashEq(k1), 2, [Obj(k1), Obj(v1), Obj(k2), Obj(v2)]);
    assert CollisionKey(n, 0) == k1 && CollisionKey(n, 1) == k2;
    EquivSameId(k1, k2);
    EquivSameId(k2, k1);
  }

  function {:induction false} CreateNode(shift: nat, key1: Object, val1: Object, key2hash: Hash, key2: Object,
          val2: Object,
                                         ghost path: seq<nat>): (n: Node)
    requires shift == 5 * |path| && 1 <= |path| <= 7
    requires OnPath(HashEq(key1), path) && OnPath(key2hash, path)
    requires HashEq(key2) == key2hash && !Equiv(key2, key1)
    ensures Inv(n, path)
    decreases 35 - shift, 1
  {
    var key1hash := HashEq(key1);
    if key1hash == key2hash then
      CreatedCollisionInv(key1, val1, key2, val2, path);
      Collision(key1hash, 2, [Obj(key1), Obj(val1), Obj(key2), Obj(val2)])
    else
      LeafSplitDepth(key1, key2, path);
      SingleInv(key1hash, key1, val1, path);
      var first := Single(shift, key1hash, key1, val1);
      After(AssocBitmap(first, shift, key2hash, key2, val2, path).change, first)
  }

  // ---- without ----

  lemma CollisionRemoveInv(n: Node, path: seq<nat>, i: nat)
    requires n.Collision? && Inv(n, path) && i < n.count && n.count > 1
    ensures var n' := Collision(n.hash, n.count - 1, RemovePair(n.pairs, i));
            && Inv(n', path)
            && (forall j | 0 <= j < i ::
                CollisionKey(n', j) == CollisionKey(n, j) && CollisionVal(n', j) == CollisionVal(n, j))
            && (forall j | i <= j < n'.count ::
                  CollisionKey(n', j) == CollisionKey(n, j + 1) && CollisionVal(n', j) == CollisionVal(n, j + 1))
  {
    var n' := Collision(n.hash, n.count - 1, RemovePair(n.pairs, i));
    RemoveAt(n.pairs, i);
    assert Shape(n', |path|) && OnPath(n'.hash, path);
    forall j | 0 <= j < n'.count ensures CollisionKey(n', j) == CollisionKey(n, if j < i then j else j + 1) {}
  }

  function Without(n: Node, shift: nat, hash: Hash, key: Object, ghost path: seq<nat>): (r: Change)
    requires Inv(n, path) && shift == 5 * |path|
    ensures !r.Gone? ==> Inv(After(r, n), path)
    decreases n, 1
  {
    match n
    case Bitmap(_, _) => WithoutBitmap(n, shift, hash, key, path)
    case Array(_, _) => WithoutArray(n, shift, hash, key, path)
    case Collision(h, count, pairs) =>
      var i := FindFrom(n, key, 0);
      if i == -1 then Same
      else if count == 1 then Gone
      else
        CollisionRemoveInv(n, path, i);
        New(Collision(h, count - 1, RemovePair(pairs, i)))
  }

  function WithoutBitmap(n: Node, shift: nat, hash: Hash, key: Object, ghost path: seq<nat>): (r: Change)
    requires n.Bitmap? && Inv(n, path) && shift == 5 * |path|
    ensures !r.Gone? ==> Inv(After(r, n), path)
    decreases n, 0
  {
    hide Bit, One, Rank, Or, Xor;
    MaskWidth(hash, |path|);
    var m := Mask(hash, shift);
    var bit := One(m);
    TestBit(n.bitmap, m);
    if And(n.bitmap, bit) == 0 then Same else
      var idx := Index(n.bitmap, m);
      BitmapCell(n, m, path);
      match ValAny(n.pairs, idx) {
        case Sub(child) =>
          (match Without(child, shift + 5, hash, key, path + [m])
           case Same => Same
           case New(node) => New(BitmapSet(n, m, Sub(node), path))
           case Gone => if n.bitmap == bit then Gone else New(BitmapRemove(n, m, path)))
        case Obj(_) => if Equiv(key, KeyAny(n.pairs, idx).o) then New(BitmapRemove(n, m, path)) else Same
      }
  }

  function WithoutArray(n: Node, shift: nat, hash: Hash, key: Object, ghost path: seq<nat>): (r: Change)
    requires n.Array? && Inv(n, path) && shift == 5 * |path|
    ensures !r.Gone? ==> Inv(After(r, n), path)
    decreases n, 0
  {
    MaskWidth(hash, |path|);
    var m := Mask(hash, shift);
    InvOfCell(n, path, m);
    match n.slots[m]
    case NoSlot => Same
    case Slot(child) =>
      match Without(child, shift + 5, hash, key, path + [m])
      case Same => Same
      case New(node) => New(ArraySet(n, n.count, m, Slot(node), path))
      case Gone =>
        if n.count <= 8 then
          PackCells(n, |path|, m);
          UpdatedInv(n, Pack(n.slots, m), path, m, Vacant);
          New(Pack(n.slots, m))
        else New(ArraySet(n, n.count - 1, m, NoSlot, path))
  }
}
