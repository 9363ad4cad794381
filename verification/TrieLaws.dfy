/**
 What the node operations mean: `Assoc` and `Without` change the answer of `Find` at one key
 class and nowhere else, and change the number of stored entries by what they report.
 */
module TrieLaws {
  import opened Words
  import opened Objects
  import opened Trie
  import opened TrieCells
  import opened TrieOps

  lemma Equivalence()
    ensures forall a, b :: Equiv(a, b) <==> Id(a) == Id(b)
    ensures forall a, b :: Equiv(a, b) ==> HashEq(a) == HashEq(b)
  {
    forall a, b
      ensures (Equiv(a, b) <==> Id(a) == Id(b)) && (Equiv(a, b) ==> HashEq(a) == HashEq(b))
    {
      EquivSameId(a, b);
    }
  }

  // ---- find, one cell at a time ----

  ghost function CellFind(c: Cell, hash: Hash, key: Object, path: seq<nat>): Option<Entry>
    requires CellInv(c, path)
  {
    match c
    case Vacant => None
    case Leaf(e) => if Equiv(key, e.key) then Some(e) else None
    case Child(n) => Find(n, 5 * |path|, hash, key, path)
  }

  lemma FindByCell(n: Node, hash: Hash, key: Object, path: seq<nat>)
    requires Inv(n, path) && !n.Collision?
    ensures Mask(hash, 5 * |path|) < 32
    ensures var m := Mask(hash, 5 * |path|);
            && CellInv(CellAt(n, m, |path|), path + [m])
            && Find(n, 5 * |path|, hash, key, path) == CellFind(CellAt(n, m, |path|), hash, key, path + [m])
  {
    hide Bit, One, Rank, And, Shr, Shape, OnPath, Inv, Mask;
    MaskWidth(hash, |path|);
    var m := Mask(hash, 5 * |path|);
    if n.Bitmap? {
      BitmapCell(n, m, path);
      TestBit(n.bitmap, m);
    } else {
      ArrayCell(n, m, path);
    }
  }

  lemma FindUpdated(n: Node, n': Node, m: nat, c: Cell, hash: Hash, key: Object, path: seq<nat>)
    requires Inv(n, path) && Inv(n', path) && CellUpdated(n, n', |path|, m, c) && CellInv(c, path + [m])
    ensures Find(n', 5 * |path|, hash, key, path) ==
            if Mask(hash, 5 * |path|) == m then CellFind(c, hash, key, path + [m])
            else Find(n, 5 * |path|, hash, key, path)
  {
    hide Find, Inv, CellInv, CellFind, Mask, Shape, OnPath;
    FindByCell(n, hash, key, path);
    FindByCell(n', hash, key, path);
  }

  lemma FindEmpty(hash: Hash, key: Object, path: seq<nat>)
    requires |path| <= 6
    ensures Inv(Empty, path) && Find(Empty, 5 * |path|, hash, key, path) == None
  {
    EmptyInv(path);
  }

  lemma FindSingle(hash: Hash, key: Object, val: Object, q: Object, path: seq<nat>)
    requires |path| <= 6 && OnPath(hash, path) && HashEq(key) == hash && OnPath(HashEq(q), path)
    ensures var n := Single(5 * |path|, hash, key, val);
            && Inv(n, path)
            && Find(n, 5 * |path|, HashEq(q), q, path) == if Equiv(key, q) then Some(Entry(key, val)) else None
  {
    SingleInv(hash, key, val, path);
    SingleUpdated(hash, key, val, path);
    FindEmpty(HashEq(q), q, path);
    MaskWidth(hash, |path|);
    OnPathStep(hash, path);
    FindUpdated(Empty, Single(5 * |path|, hash, key, val), Mask(hash, 5 * |path|), Leaf(Entry(key, val)), HashEq(q),
      q, path);
    EquivSameId(key, q);
    EquivSameId(q, key);
  }

  lemma FindWrapper(n: Node, hash: Hash, key: Object, path: seq<nat>)
    requires n.Collision? && Inv(n, path) && OnPath(hash, path) && HashEq(key) == hash
    requires |path| <= 6 && Inv(Wrapper(n, 5 * |path|), path)
    ensures Find(Wrapper(n, 5 * |path|), 5 * |path|, hash, key, path) == Find(n, 5 * |path|, hash, key, path)
  {
    var m := Mask(n.hash, 5 * |path|);
    WrapperUpdated(n, path);
    FindEmpty(hash, key, path);
    OnPathStep(n.hash, path);
    assert Inv(n, path + [m]);
    FindUpdated(Empty, Wrapper(n, 5 * |path|), m, Child(n), hash, key, path);
    if Mask(hash, 5 * |path|) != m { MissCollision(n, key, path); }
  }

  /** A key whose hash is not the node's hash is in no collision node. */
  lemma MissCollision(n: Node, key: Object, path: seq<nat>)
    requires n.Collision? && Inv(n, path) && HashEq(key) != n.hash
    ensures FindFrom(n, key, 0) == -1
  {
    Equivalence();
  }

  lemma CollisionDistinct(n: Node, key: Object, i: nat, j: nat, path: seq<nat>)
    requires n.Collision? && Inv(n, path) && i < n.count && j < n.count
    requires Equiv(key, CollisionKey(n, i)) && Equiv(key, CollisionKey(n, j))
    ensures i == j
  {
    hide Equiv, Id;
    Equivalence();
  }

  lemma FoundCollision(n: Node, key: Object, i: nat, path: seq<nat>)
    requires n.Collision? && Inv(n, path) && i < n.count && Equiv(key, CollisionKey(n, i))
    ensures FindFrom(n, key, 0) == i
  {
    var r := FindFrom(n, key, 0);
    assert r != -1;
    CollisionDistinct(n, key, i, r, path);
  }

  // ---- assoc ----

  /** The entry that `assoc` leaves under the class of `key`: an old key object is kept. */
  function Stored(prior: Option<Entry>, key: Object, val: Object): Entry {
    match prior
    case Some(e) => Entry(e.key, val)
    case None => Entry(key, val)
  }

  ghost predicate AssocLaw(before: Option<Entry>, at: Option<Entry>, key: Object, val: Object, q: Object,
          after: Option<Entry>) {
    after == if Equiv(key, q) then Some(Stored(at, key, val)) else before
  }

  /** The law of one `assoc` result: what it answers at `q`, and when it reports an addition. */
  ghost predicate AssocOk(n: Node, r: Assoced, key: Object, val: Object, q: Object, path: seq<nat>)
    requires Inv(n, path) && !r.change.Gone? && Inv(After(r.change, n), path)
  {
    var s := 5 * |path|;
    && AssocLaw(Find(n, s, HashEq(q), q, path), Find(n, s, HashEq(key), key, path), key, val, q,
                Find(After(r.change, n), s, HashEq(q), q, path))
    && r.added == Find(n, s, HashEq(key), key, path).None?
  }

  /** A law about the cell on the key's path is the law about the node. */
  lemma Lifted(n: Node, n': Node, m: nat, c: Cell, key: Object, val: Object, q: Object, path: seq<nat>)
    requires Inv(n, path) && Inv(n', path) && CellUpdated(n, n', |path|, m, c) && CellInv(c, path + [m])
    requires CellInv(CellAt(n, m, |path|), path + [m])
    requires m == Mask(HashEq(key), 5 * |path|)
    requires var c0 := CellAt(n, m, |path|);
             Mask(HashEq(q), 5 * |path|) == m ==>
               AssocLaw(CellFind(c0, HashEq(q), q, path + [m]), CellFind(c0, HashEq(key), key, path + [m]),
                        key, val, q, CellFind(c, HashEq(q), q, path + [m]))
    ensures var s := 5 * |path|;
            AssocLaw(Find(n, s, HashEq(q), q, path), Find(n, s, HashEq(key), key, path), key, val, q,
                     Find(n', s, HashEq(q), q, path))
  {
    hide CellFind, Find, CellAt, Equiv, Id, HashEq, CellInv, Inv, Mask;
    Equivalence();
    FindByCell(n, HashEq(key), key, path);
    FindByCell(n, HashEq(q), q, path);
    FindUpdated(n, n', m, c, HashEq(q), q, path);
  }

  lemma {:induction false} AssocFind(n: Node, key: Object, val: Object, q: Object, path: seq<nat>)
    requires Inv(n, path) && OnPath(HashEq(key), path) && OnPath(HashEq(q), path)
    ensures AssocOk(n, Assoc(n, 5 * |path|, HashEq(key), key, val, path), key, val, q, path)
    decreases 35 - 5 * |path|, 4
  {
    match n
    case Bitmap(_, _) => AssocBitmapFind(n, key, val, q, path);
    case Array(_, _) => AssocArrayFind(n, key, val, q, path);
    case Collision(_, _, _) => AssocCollisionFind(n, key, val, q, path);
  }

  /** Updating the child on the key's path. */
  lemma ChildStep(n: Node, r: Assoced, m: nat, child: Node, cr: Assoced, key: Object, val: Object, q: Object,
          path: seq<nat>)
    requires Inv(n, path) && m == Mask(HashEq(key), 5 * |path|) < 32 && !n.Collision?
    requires CellAt(n, m, |path|) == Child(child)
    requires Inv(child, path + [m]) && !cr.change.Gone? && Inv(After(cr.change, child), path + [m])
    requires AssocOk(child, cr, key, val, key, path + [m])
    requires Mask(HashEq(q), 5 * |path|) == m ==> AssocOk(child, cr, key, val, q, path + [m])
    requires !r.change.Gone? && r.added == cr.added && (r.change.Same? <==> cr.change.Same?)
    requires Inv(After(r.change, n), path)
    requires r.change.New? ==> CellUpdated(n, r.change.node, |path|, m, Child(cr.change.node))
    ensures AssocOk(n, r, key, val, q, path)
  {
    hide Find, CellAt, Equiv, Id, HashEq, Inv, Mask, Shape, Stored;
    Equivalence();
    FindByCell(n, HashEq(key), key, path);
    FindByCell(n, HashEq(q), q, path);
    if r.change.New? { Lifted(n, r.change.node, m, Child(cr.change.node), key, val, q, path); }
  }

  /** `assoc` where the key's position holds a leaf. */
  lemma AssocAtLeaf(n: Node, m: nat, v: Object, key: Object, val: Object, path: seq<nat>)
    requires n.Bitmap? && Inv(n, path) && OnPath(HashEq(key), path)
    requires m == Mask(HashEq(key), 5 * |path|) < 32 && Bit(n.bitmap, m)
    requires ValAny(n.pairs, Index(n.bitmap, m)) == Obj(v)
    ensures KeyAny(n.pairs, Index(n.bitmap, m)).Obj? && |path| <= 6
    ensures var k0 := KeyAny(n.pairs, Index(n.bitmap, m)).o;
            && CellAt(n, m, |path|) == Leaf(Entry(k0, v)) && CellInv(Leaf(Entry(k0, v)), path + [m])
            && AssocBitmap(n, 5 * |path|, HashEq(key), key, val, path) ==
               if Equiv(key, k0) then
                 if Identical(val, v) then Assoced(Same, false)
                 else Assoced(New(BitmapSet(n, m, Obj(val), path)), false)
               else
                 (OnPathStep(HashEq(key), path);
                  Assoced(New(BitmapSplit(n, m, CreateNode(5 * |path| + 5, k0, v, HashEq(key), key, val, path
                    + [m]), path)), true))
  {
    hide Bit, One, Rank, And, Or, Shr, Equiv, HashEq, Mask, Inv, Shape, OnPath, CreateNode, BitmapSet, BitmapSplit,
        AddPair, Assoc, CellAt, CellInv, Index, KeyAny, ValAny;
    MaskWidth(HashEq(key), |path|);
    OnPathStep(HashEq(key), path);
    TestBit(n.bitmap, m);
    BitmapCell(n, m, path);
  }

  /** The key's position holds a leaf: its value is replaced, or both entries move one level down. */
  lemma {:induction false} AssocLeafFind(n: Node, m: nat, v: Object, key: Object, val: Object, q: Object,
          path: seq<nat>)
    requires n.Bitmap? && Inv(n, path) && OnPath(HashEq(key), path) && OnPath(HashEq(q), path)
    requires m == Mask(HashEq(key), 5 * |path|) < 32 && Bit(n.bitmap, m)
    requires ValAny(n.pairs, Index(n.bitmap, m)) == Obj(v)
    ensures AssocOk(n, AssocBitmap(n, 5 * |path|, HashEq(key), key, val, path), key, val, q, path)
    decreases 35 - 5 * |path|, 0
  {
    hide Bit, One, Rank, And, Or, Shr, Equiv, Id, HashEq, Mask, Inv, Shape, OnPath, Find, CreateNode, AssocBitmap,
        CellAt;
    Equivalence();
    OnPathStep(HashEq(key), path);
    OnPathStep(HashEq(q), path);
    BitmapCell(n, m, path);
    AssocAtLeaf(n, m, v, key, val, path);
    FindByCell(n, HashEq(key), key, path);
    FindByCell(n, HashEq(q), q, path);
    var k0 := KeyAny(n.pairs, Index(n.bitmap, m)).o;
    if Equiv(key, k0) {
      if !Identical(val, v) {
        Lifted(n, BitmapSet(n, m, Obj(val), path), m, Leaf(Entry(k0, val)), key, val, q, path);
      }
    } else {
      var child := CreateNode(5 * |path| + 5, k0, v, HashEq(key), key, val, path + [m]);
      if Mask(HashEq(q), 5 * |path|) == m { CreateNodeFind(k0, v, key, val, q, path + [m]); }
      Lifted(n, BitmapSplit(n, m, child, path), m, Child(child), key, val, q, path);
    }
  }

  lemma {:induction false} AssocBitmapFind(n: Node, key: Object, val: Object, q: Object, path: seq<nat>)
    requires n.Bitmap? && Inv(n, path) && OnPath(HashEq(key), path) && OnPath(HashEq(q), path)
    ensures AssocOk(n, AssocBitmap(n, 5 * |path|, HashEq(key), key, val, path), key, val, q, path)
    decreases 35 - 5 * |path|, 1
  {
    hide Bit, One, Rank, And, Or, Shr, Equiv, Id, HashEq, Mask, Inv, Shape, OnPath, Find, BitmapSplit, AddPair;
    var s, h := 5 * |path|, HashEq(key);
    var r := AssocBitmap(n, s, h, key, val, path);
    var m := Mask(h, s);
    MaskWidth(h, |path|);
    OnPathStep(h, path);
    OnPathStep(HashEq(q), path);
    TestBit(n.bitmap, m);
    BitmapCell(n, m, path);
    if Bit(n.bitmap, m) {
      match ValAny(n.pairs, Index(n.bitmap, m)) {
        case Sub(child) =>
          var cr := Assoc(child, s + 5, h, key, val, path + [m]);
          AssocFind(child, key, val, key, path + [m]);
          if Mask(HashEq(q), s) == m { AssocFind(child, key, val, q, path + [m]); }
          ChildStep(n, r, m, child, cr, key, val, q, path);
        case Obj(v) =>
          AssocLeafFind(n, m, v, key, val, q, path);
      }
    } else {
      AddPairFind(n, m, key, val, q, path);
    }
  }

  lemma ExpandedFind(n: Node, key: Object, val: Object, q: Object, path: seq<nat>)
    requires n.Bitmap? && Inv(n, path) && OnPath(HashEq(key), path) && OnPath(HashEq(q), path)
    requires Mask(HashEq(key), 5 * |path|) < 32
    requires Rank(n.bitmap, 32) >= 16 && !Bit(n.bitmap, Mask(HashEq(key), 5 * |path|))
    ensures var s := 5 * |path|;
            var a := Array(Rank(n.bitmap, 32) + 1,
                           Expanded(n, s, Mask(HashEq(key), s), Single(s + 5, HashEq(key), key, val)));
            && Inv(a, path)
            && Find(a, s, HashEq(q), q, path) ==
               if Equiv(key, q) then Some(Entry(key, val)) else Find(n, s, HashEq(q), q, path)
  {
    hide Bit, One, Rank, And, Or, Shr, Equiv, Id, HashEq, Mask;
    Equivalence();
    var s, h, mq := 5 * |path|, HashEq(key), Mask(HashEq(q), 5 * |path|);
    var m := Mask(h, s);
    ExpandedInv(n, path, h, key, val);
    OnPathStep(h, path);
    OnPathStep(HashEq(q), path);
    var leaf := Single(s + 5, h, key, val);
    var a := Array(Rank(n.bitmap, 32) + 1, Expanded(n, s, m, leaf));
    FindByCell(a, HashEq(q), q, path);
    FindByCell(n, HashEq(q), q, path);
    if mq == m {
      FindSingle(h, key, val, q, path + [m]);
    } else {
      match CellAt(n, mq, |path|)
      case Leaf(e) => FindSingle(HashEq(e.key), e.key, e.val, q, path + [mq]);
      case _ =>
    }
  }

  lemma AddPairInsert(n: Node, m: nat, key: Object, val: Object, q: Object, path: seq<nat>)
    requires n.Bitmap? && Inv(n, path) && OnPath(HashEq(key), path) && OnPath(HashEq(q), path)
    requires m == Mask(HashEq(key), 5 * |path|) < Width(|path|) <= 32 && !Bit(n.bitmap, m)
    requires BitCount(n.bitmap) < 16
    ensures var s := 5 * |path|;
            Find(AddPair(n, s, m, HashEq(key), key, val, path), s, HashEq(q), q, path) ==
            if Equiv(key, q) then Some(Entry(key, val)) else Find(n, s, HashEq(q), q, path)
  {
    hide Inv, Bit, One, Rank, And, Or, Shr, Equiv, Id, HashEq, Mask, Find, BitmapInsert, OnPath, Shape, Width, BitCount;
    BitmapCell(n, m, path);
    CountIsRank(n.bitmap, 32);
    OnPathStep(HashEq(key), path);
    InsertFind(n, BitmapInsert(n, m, key, val, path), m, key, val, q, path);
  }

  lemma AddPairExpand(n: Node, m: nat, key: Object, val: Object, q: Object, path: seq<nat>)
    requires n.Bitmap? && Inv(n, path) && OnPath(HashEq(key), path) && OnPath(HashEq(q), path)
    requires m == Mask(HashEq(key), 5 * |path|) < Width(|path|) <= 32 && !Bit(n.bitmap, m)
    requires BitCount(n.bitmap) >= 16
    ensures var s := 5 * |path|;
            Find(AddPair(n, s, m, HashEq(key), key, val, path), s, HashEq(q), q, path) ==
            if Equiv(key, q) then Some(Entry(key, val)) else Find(n, s, HashEq(q), q, path)
  {
    hide Inv, Bit, One, Rank, And, Or, Shr, Equiv, Id, HashEq, Mask, Single, Expanded, OnPath, Width, BitCount,
        Find, Shape;
    BitmapCell(n, m, path);
    CountIsRank(n.bitmap, 32);
    ExpandedFind(n, key, val, q, path);
  }

  lemma AddPairFind(n: Node, m: nat, key: Object, val: Object, q: Object, path: seq<nat>)
    requires n.Bitmap? && Inv(n, path) && OnPath(HashEq(key), path) && OnPath(HashEq(q), path)
    requires m == Mask(HashEq(key), 5 * |path|) < Width(|path|) <= 32 && !Bit(n.bitmap, m)
    ensures var s := 5 * |path|;
            && Find(n, s, HashEq(key), key, path) == None
            && Find(AddPair(n, s, m, HashEq(key), key, val, path), s, HashEq(q), q, path) ==
               if Equiv(key, q) then Some(Entry(key, val)) else Find(n, s, HashEq(q), q, path)
  {
    CountIsRank(n.bitmap, 32);
    FindVacant(n, HashEq(key), key, path);
    if BitCount(n.bitmap) < 16 { AddPairInsert(n, m, key, val, q, path); }
    else { AddPairExpand(n, m, key, val, q, path); }
  }

  lemma FindVacant(n: Node, hash: Hash, key: Object, path: seq<nat>)
    requires n.Bitmap? && Inv(n, path) && !Bit(n.bitmap, Mask(hash, 5 * |path|))
    ensures Find(n, 5 * |path|, hash, key, path) == None
  {
    hide Bit, One, Rank, And, Or, Shr, Equiv, Id, Mask;
    FindByCell(n, hash, key, path);
  }

  lemma InsertFind(n: Node, n': Node, m: nat, key: Object, val: Object, q: Object, path: seq<nat>)
    requires n.Bitmap? && Inv(n, path) && Inv(n', path) && OnPath(HashEq(key), path)
    requires m == Mask(HashEq(key), 5 * |path|) < 32 && !Bit(n.bitmap, m)
    requires CellUpdated(n, n', |path|, m, Leaf(Entry(key, val)))
    ensures var s := 5 * |path|;
            Find(n', s, HashEq(q), q, path) ==
            if Equiv(key, q) then Some(Entry(key, val)) else Find(n, s, HashEq(q), q, path)
  {
    hide Bit, One, Rank, And, Or, Shr, Equiv, Id, HashEq, Mask, Find;
    Equivalence();
    OnPathStep(HashEq(key), path);
    FindVacant(n, HashEq(key), key, path);
    Lifted(n, n', m, Leaf(Entry(key, val)), key, val, q, path);
  }

  lemma {:induction false} AssocArrayFind(n: Node, key: Object, val: Object, q: Object, path: seq<nat>)
    requires n.Array? && Inv(n, path) && OnPath(HashEq(key), path) && OnPath(HashEq(q), path)
    ensures AssocOk(n, AssocArray(n, 5 * |path|, HashEq(key), key, val, path), key, val, q, path)
    decreases 35 - 5 * |path|, 1
  {
    hide Equiv, Id, HashEq, Mask, Inv, Shape, OnPath, Find, Single;
    Equivalence();
    var s, h, mq := 5 * |path|, HashEq(key), Mask(HashEq(q), 5 * |path|);
    var m := Mask(h, s);
    MaskWidth(h, |path|);
    OnPathStep(h, path);
    OnPathStep(HashEq(q), path);
    ArrayCell(n, m, path);
    FindByCell(n, h, key, path);
    match n.slots[m]
    case NoSlot =>
      var leaf := Single(s + 5, h, key, val);
      SingleInv(h, key, val, path + [m]);
      if mq == m { FindSingle(h, key, val, q, path + [m]); }
      Lifted(n, ArraySet(n, n.count + 1, m, Slot(leaf), path), m, Child(leaf), key, val, q, path);
    case Slot(child) =>
      var cr := Assoc(child, s + 5, h, key, val, path + [m]);
      AssocFind(child, key, val, key, path + [m]);
      if mq == m { AssocFind(child, key, val, q, path + [m]); }
      ChildStep(n, AssocArray(n, s, h, key, val, path), m, child, cr, key, val, q, path);
  }


  lemma {:induction false} AssocCollisionFind(n: Node, key: Object, val: Object, q: Object, path: seq<nat>)
    requires n.Collision? && Inv(n, path) && OnPath(HashEq(key), path) && OnPath(HashEq(q), path)
    ensures AssocOk(n, AssocCollision(n, 5 * |path|, HashEq(key), key, val, path), key, val, q, path)
    decreases 35 - 5 * |path|, 2
  {
    hide Bit, One, Rank, And, Or, Shr, Equiv, Id, HashEq, Mask, Shape, OnPath, Find, AssocBitmap;
    var s, h := 5 * |path|, HashEq(key);
    if h == n.hash {
      CollisionAssocFind(n, key, val, q, path);
    } else {
      MissCollision(n, key, path);
      WrapperInv(n, h, path);
      FindWrapper(n, h, key, path);
      FindWrapper(n, HashEq(q), q, path);
      AssocBitmapFind(Wrapper(n, s), key, val, q, path);
    }
  }

  lemma FindCollision(n: Node, q: Object, path: seq<nat>)
    requires n.Collision? && Inv(n, path)
    ensures |n.pairs| == 2 * n.count
    ensures forall j | 0 <= j < n.count :: KeyAny(n.pairs, j).Obj? && ValAny(n.pairs, j).Obj?
    ensures var j := FindFrom(n, q, 0);
            Find(n, 5 * |path|, HashEq(q), q, path) ==
            if j == -1 then None else Some(Entry(CollisionKey(n, j), CollisionVal(n, j).o))
  {}

  lemma CollisionAddFind(n: Node, n': Node, key: Object, val: Object, q: Object, path: seq<nat>)
    requires n.Collision? && n'.Collision? && Inv(n, path) && Inv(n', path) && n'.count == n.count + 1
    requires forall j | 0 <= j < n.count ::
             CollisionKey(n', j) == CollisionKey(n, j) && CollisionVal(n', j) == CollisionVal(n, j)
    requires CollisionKey(n', n.count) == key && CollisionVal(n', n.count) == Obj(val)
    requires FindFrom(n, key, 0) == -1
    ensures var s := 5 * |path|;
            && Find(n, s, HashEq(key), key, path) == None
            && Find(n', s, HashEq(q), q, path) ==
               if Equiv(key, q) then Some(Entry(key, val)) else Find(n, s, HashEq(q), q, path)
  {
    hide Find, Inv, Equiv, Id, HashEq, FindFrom;
    Equivalence();
    FindCollision(n, q, path);
    FindCollision(n, key, path);
    FindCollision(n', q, path);
    var j, j' := FindFrom(n, q, 0), FindFrom(n', q, 0);
    if Equiv(key, q) { FoundCollision(n', q, n.count, path); }
    else if j != -1 { FoundCollision(n', q, j, path); }
  }

  lemma CollisionSetFind(n: Node, n': Node, i: nat, key: Object, val: Object, q: Object, path: seq<nat>)
    requires n.Collision? && n'.Collision? && Inv(n, path) && Inv(n', path) && n'.count == n.count && i < n.count
    requires forall j | 0 <= j < n.count :: CollisionKey(n', j) == CollisionKey(n, j)
    requires forall j | 0 <= j < n.count :: CollisionVal(n', j) == if j == i then Obj(val) else CollisionVal(n, j)
    requires FindFrom(n, key, 0) == i
    ensures var s := 5 * |path|;
            && Find(n, s, HashEq(key), key, path).Some?
            && AssocLaw(Find(n, s, HashEq(q), q, path), Find(n, s, HashEq(key), key, path), key, val, q,
                        Find(n', s, HashEq(q), q, path))
  {
    hide Find, Inv, Equiv, Id, HashEq, FindFrom, KeyAny, ValAny;
    FindCollision(n, q, path);
    FindCollision(n, key, path);
    FindCollision(n', q, path);
    SameKeys(n, n', q, 0);
    EquivSameId(key, CollisionKey(n, i));
    EquivSameId(key, q);
    EquivSameId(q, CollisionKey(n, i));
    if Equiv(key, q) { FoundCollision(n, q, i, path); }
  }

  lemma {:induction false} SameKeys(n: Node, n': Node, q: Object, i: nat)
    requires n.Collision? && n'.Collision? && |n.pairs| == 2 * n.count == 2 * n'.count == |n'.pairs| && i <= n.count
    requires forall j | 0 <= j < n.count :: KeyAny(n.pairs, j).Obj? && KeyAny(n'.pairs, j).Obj?
    requires forall j | 0 <= j < n.count :: CollisionKey(n', j) == CollisionKey(n, j)
    ensures FindFrom(n', q, i) == FindFrom(n, q, i)
    decreases n.count - i
  {
    if i < n.count { SameKeys(n, n', q, i + 1); }
  }

  /** Where the stored value is already the new one, nothing needs to change. */
  lemma CollisionSameFind(n: Node, i: nat, key: Object, val: Object, q: Object, path: seq<nat>)
    requires n.Collision? && Inv(n, path) && i < n.count && FindFrom(n, key, 0) == i && CollisionVal(n, i) == Obj(val)
    ensures var s := 5 * |path|;
            && Find(n, s, HashEq(key), key, path).Some?
            && AssocLaw(Find(n, s, HashEq(q), q, path), Find(n, s, HashEq(key), key, path), key, val, q,
                        Find(n, s, HashEq(q), q, path))
  {
    hide Find, Inv, Equiv, Id, HashEq, FindFrom;
    Equivalence();
    FindCollision(n, q, path);
    FindCollision(n, key, path);
    if Equiv(key, q) { FoundCollision(n, q, i, path); }
  }

  /** Searching two collision nodes for `q` when each answer is known. */
  lemma CollisionAssocFind(n: Node, key: Object, val: Object, q: Object, path: seq<nat>)
    requires n.Collision? && Inv(n, path) && HashEq(key) == n.hash && OnPath(HashEq(q), path)
    ensures AssocOk(n, AssocCollision(n, 5 * |path|, n.hash, key, val, path), key, val, q, path)
  {
    hide Find, OnPath, Equiv, HashEq, FindFrom;
    var i := FindFrom(n, key, 0);
    var s := 5 * |path|;
    if i == -1 {
      var n' := Collision(n.hash, n.count + 1, n.pairs + [Obj(key), Obj(val)]);
      CollisionAddInv(n, path, key, val);
      assert AssocCollision(n, s, n.hash, key, val, path) == Assoced(New(n'), true);
      CollisionAddFind(n, n', key, val, q, path);
    } else {
      CollisionSetInv(n, path, i, val);
      if CollisionVal(n, i) == Obj(val) { CollisionSameFind(n, i, key, val, q, path); }
      CollisionSetFind(n, Collision(n.hash, n.count, CloneAndSet(n.pairs, 2 * i + 1, Obj(val))), i, key, val, q, path);
    }
  }

  lemma MissSame(n: Node, key: Object, q: Object)
    requires n.Collision? && |n.pairs| == 2 * n.count
    requires forall j | 0 <= j < n.count :: KeyAny(n.pairs, j).Obj?
    requires FindFrom(n, key, 0) == -1 && Equiv(key, q)
    ensures FindFrom(n, q, 0) == -1
  {
    var j := FindFrom(n, q, 0);
    if j != -1 {
      EquivSameId(q, CollisionKey(n, j));
      EquivSameId(key, q);
      EquivSameId(key, CollisionKey(n, j));
    }
  }

  lemma {:induction false} CreateNodeFind(k1: Object, v1: Object, k2: Object, v2: Object, q: Object, path: seq<nat>)
    requires 1 <= |path| <= 7 && OnPath(HashEq(k1), path) && OnPath(HashEq(k2), path) && OnPath(HashEq(q), path)
    requires !Equiv(k2, k1)
    ensures var s := 5 * |path|;
            Find(CreateNode(s, k1, v1, HashEq(k2), k2, v2, path), s, HashEq(q), q, path) ==
            if Equiv(k2, q) then Some(Entry(k2, v2)) else if Equiv(k1, q) then Some(Entry(k1, v1)) else None
    decreases 35 - 5 * |path|, 2
  {
    EquivSameId(k1, q);
    EquivSameId(k2, q);
    EquivSameId(k1, k2);
    EquivSameId(k2, k1);
    if HashEq(k1) == HashEq(k2) {
      var n := CreateNode(5 * |path|, k1, v1, HashEq(k2), k2, v2, path);
      assert CollisionKey(n, 0) == k1 && CollisionKey(n, 1) == k2;
      EquivSameId(q, k1);
      EquivSameId(q, k2);
      var j := FindFrom(n, q, 0);
      if Equiv(k1, q) { FoundCollision(n, q, 0, path); }
      if Equiv(k2, q) { FoundCollision(n, q, 1, path); }
    } else {
      LeafSplitDepth(k1, k2, path);
      SingleInv(HashEq(k1), k1, v1, path);
      FindSingle(HashEq(k1), k1, v1, q, path);
      FindSingle(HashEq(k1), k1, v1, k2, path);
      AssocBitmapFind(Single(5 * |path|, HashEq(k1), k1, v1), k2, v2, q, path);
    }
  }

  // ---- without ----

  ghost predicate WithoutLaw(n: Node, c: Change, key: Object, q: Object, path: seq<nat>)
    requires Inv(n, path) && (!c.Gone? ==> Inv(After(c, n), path))
  {
    var s := 5 * |path|;
    && (c.Same? <==> Find(n, s, HashEq(key), key, path).None?)
    && (if c.Gone? then Equiv(key, q) || Find(n, s, HashEq(q), q, path).None?
        else Find(After(c, n), s, HashEq(q), q, path) ==
             if Equiv(key, q) then None else Find(n, s, HashEq(q), q, path))
  }

  lemma {:induction false} WithoutFind(n: Node, key: Object, q: Object, path: seq<nat>)
    requires Inv(n, path) && OnPath(HashEq(key), path) && OnPath(HashEq(q), path)
    ensures WithoutLaw(n, Without(n, 5 * |path|, HashEq(key), key, path), key, q, path)
    decreases n, 1
  {
    match n
    case Bitmap(_, _) => WithoutBitmapFind(n, key, q, path);
    case Array(_, _) => WithoutArrayFind(n, key, q, path);
    case Collision(_, _, _) => WithoutCollisionFind(n, key, q, path);
  }

  lemma WithoutCollisionFind(n: Node, key: Object, q: Object, path: seq<nat>)
    requires n.Collision? && Inv(n, path)
    ensures WithoutLaw(n, Without(n, 5 * |path|, HashEq(key), key, path), key, q, path)
  {
    hide Find, Inv, Equiv, Id, HashEq, RemovePair, OnPath, FindFrom;
    Equivalence();
    FindCollision(n, key, path);
    FindCollision(n, q, path);
    var i := FindFrom(n, key, 0);
    if i == -1 {
      if Equiv(key, q) { MissSame(n, key, q); }
    } else if n.count > 1 {
      CollisionRemoveInv(n, path, i);
      CollisionRemovedFind(n, i, q, path);
    }
  }

  lemma CollisionRemovedFind(n: Node, i: nat, q: Object, path: seq<nat>)
    requires n.Collision? && Inv(n, path) && i < n.count && n.count > 1
    requires Inv(Collision(n.hash, n.count - 1, RemovePair(n.pairs, i)), path)
    ensures Find(Collision(n.hash, n.count - 1, RemovePair(n.pairs, i)), 5 * |path|, HashEq(q), q, path) ==
            if Equiv(CollisionKey(n, i), q) then None else Find(n, 5 * |path|, HashEq(q), q, path)
  {
    hide Find, Inv, Equiv, Id, HashEq, RemovePair, OnPath, FindFrom;
    Equivalence();
    FindCollision(n, q, path);
    CollisionRemoveInv(n, path, i);
    var n' := Collision(n.hash, n.count - 1, RemovePair(n.pairs, i));
    FindCollision(n', q, path);
    var j, j' := FindFrom(n, q, 0), FindFrom(n', q, 0);
    if j' != -1 { FoundCollision(n, q, if j' < i then j' else j' + 1, path); }
    if Equiv(CollisionKey(n, i), q) { FoundCollision(n, q, i, path); }
    else if j' == -1 && j != -1 { FoundCollision(n', q, if j < i then j else j - 1, path); }
  }

  /** A law about the cell on the key's path is the law about the node. */
  lemma LiftedWithout(n: Node, n': Node, m: nat, c: Cell, key: Object, q: Object, path: seq<nat>)
    requires Inv(n, path) && Inv(n', path) && CellUpdated(n, n', |path|, m, c) && CellInv(c, path + [m])
    requires CellInv(CellAt(n, m, |path|), path + [m])
    requires m == Mask(HashEq(key), 5 * |path|)
    requires var c0 := CellAt(n, m, |path|);
             && CellFind(c0, HashEq(key), key, path + [m]).Some?
             && (Mask(HashEq(q), 5 * |path|) == m ==>
                   CellFind(c, HashEq(q), q, path + [m]) ==
                   if Equiv(key, q) then None else CellFind(c0, HashEq(q), q, path + [m]))
    ensures WithoutLaw(n, New(n'), key, q, path)
  {
    hide CellFind, Find, CellAt, Equiv, Id, HashEq, CellInv, Inv, Mask;
    Equivalence();
    FindByCell(n, HashEq(key), key, path);
    FindByCell(n, HashEq(q), q, path);
    FindUpdated(n, n', m, c, HashEq(q), q, path);
  }

  lemma {:induction false} WithoutBitmapFind(n: Node, key: Object, q: Object, path: seq<nat>)
    requires n.Bitmap? && Inv(n, path) && OnPath(HashEq(key), path) && OnPath(HashEq(q), path)
    ensures WithoutLaw(n, WithoutBitmap(n, 5 * |path|, HashEq(key), key, path), key, q, path)
    decreases n, 0
  {
    hide Bit, One, Rank, And, Or, Xor, Shr, Equiv, Id, HashEq, Mask, Inv, Shape, OnPath, Find;
    Equivalence();
    var s, h, mq := 5 * |path|, HashEq(key), Mask(HashEq(q), 5 * |path|);
    var m := Mask(h, s);
    MaskWidth(h, |path|);
    MaskWidth(HashEq(q), |path|);
    OnPathStep(h, path);
    OnPathStep(HashEq(q), path);
    FindByCell(n, h, key, path);
    FindByCell(n, HashEq(q), q, path);
    TestBit(n.bitmap, m);
    BitmapCell(n, m, path);
    if Bit(n.bitmap, m) {
      match ValAny(n.pairs, Index(n.bitmap, m)) {
        case Sub(child) =>
          WithoutFind(child, key, key, path + [m]);
          if mq == m { WithoutFind(child, key, q, path + [m]); }
          match Without(child, s + 5, h, key, path + [m]) {
            case Same =>
            case New(node) => LiftedWithout(n, BitmapSet(n, m, Sub(node), path), m, Child(node), key, q, path);
            case Gone =>
              if n.bitmap == One(m) { BitOne(m, mq); BitmapCell(n, mq, path); }
              else { LiftedWithout(n, BitmapRemove(n, m, path), m, Vacant, key, q, path); }
          }
        case Obj(v) =>
          if Equiv(key, KeyAny(n.pairs, Index(n.bitmap, m)).o) {
            LiftedWithout(n, BitmapRemove(n, m, path), m, Vacant, key, q, path);
          }
      }
    }
  }

  lemma {:induction false} WithoutArrayFind(n: Node, key: Object, q: Object, path: seq<nat>)
    requires n.Array? && Inv(n, path) && OnPath(HashEq(key), path) && OnPath(HashEq(q), path)
    ensures WithoutLaw(n, WithoutArray(n, 5 * |path|, HashEq(key), key, path), key, q, path)
    decreases n, 0
  {
    hide Equiv, Id, HashEq, Mask, Pack, Inv, OnPath, Find;
    Equivalence();
    var s, h, mq := 5 * |path|, HashEq(key), Mask(HashEq(q), 5 * |path|);
    var m := Mask(h, s);
    MaskWidth(h, |path|);
    OnPathStep(h, path);
    OnPathStep(HashEq(q), path);
    FindByCell(n, h, key, path);
    FindByCell(n, HashEq(q), q, path);
    ArrayCell(n, m, path);
    match n.slots[m]
    case NoSlot =>
    case Slot(child) =>
      WithoutFind(child, key, key, path + [m]);
      if mq == m { WithoutFind(child, key, q, path + [m]); }
      match Without(child, s + 5, h, key, path + [m]) {
        case Same =>
        case New(node) => LiftedWithout(n, ArraySet(n, n.count, m, Slot(node), path), m, Child(node), key, q, path);
        case Gone =>
          if n.count <= 8 {
            PackCells(n, |path|, m);
            UpdatedInv(n, Pack(n.slots, m), path, m, Vacant);
            LiftedWithout(n, Pack(n.slots, m), m, Vacant, key, q, path);
          } else {
            LiftedWithout(n, ArraySet(n, n.count - 1, m, NoSlot, path), m, Vacant, key, q, path);
          }
      }
  }
}
