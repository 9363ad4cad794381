/**
 The entry list against the operations: its length changes by exactly what `Assoc` and `Without`
 report, it holds an entry exactly when `Find` returns it, and no two of its keys are equivalent.
 */
module TrieEntries {
  import opened Words
  import opened Objects
  import opened Trie
  import opened TrieCells
  import opened TrieOps
  import opened TrieLaws
  import opened TrieSeq

  // ---- lengths ----

  lemma {:induction false} CellsLength(n: Node, n': Node, m: nat, c: Cell, depth: nat, i: nat)
    requires CellUpdated(n, n', depth, m, c) && i <= 32
    ensures |CellsFrom(n', i, depth)| + (if i <= m then |CellEntries(CellAt(n, m, depth))| else 0) ==
            |CellsFrom(n, i, depth)| + (if i <= m then |CellEntries(c)| else 0)
    decreases 32 - i
  {
    hide Shape, CellAt, CellEntries;
    if i < 32 { CellsLength(n, n', m, c, depth, i + 1); }
  }

  lemma UpdatedLength(n: Node, n': Node, m: nat, c: Cell, path: seq<nat>)
    requires Inv(n, path) && Inv(n', path) && CellUpdated(n, n', |path|, m, c)
    ensures |Entries(n')| + |CellEntries(CellAt(n, m, |path|))| == |Entries(n)| + |CellEntries(c)|
  {
    EntriesByCells(n, path);
    EntriesByCells(n', path);
    CellsLength(n, n', m, c, |path|, 0);
  }

  lemma EmptyLength(path: seq<nat>)
    requires |path| <= 6
    ensures Inv(Empty, path) && Entries(Empty) == []
    ensures forall i | 0 <= i < 32 :: CellAt(Empty, i, |path|) == Vacant
  {
    EmptyInv(path);
    forall i | 0 <= i < 32 ensures CellAt(Empty, i, |path|) == Vacant { ZeroBits(i); }
  }

  lemma SingleLength(hash: Hash, key: Object, val: Object, path: seq<nat>)
    requires |path| <= 6 && OnPath(hash, path) && HashEq(key) == hash
    ensures |Entries(Single(5 * |path|, hash, key, val))| == 1
  {
    hide Inv, Shape, CellAt, Single, OnPath, Mask, Entries;
    EmptyLength(path);
    SingleInv(hash, key, val, path);
    SingleUpdated(hash, key, val, path);
    UpdatedLength(Empty, Single(5 * |path|, hash, key, val), Mask(hash, 5 * |path|), Leaf(Entry(key, val)), path);
  }

  lemma WrapperLength(n: Node, path: seq<nat>)
    requires n.Collision? && |path| <= 6 && Inv(Wrapper(n, 5 * |path|), path)
    ensures |Entries(Wrapper(n, 5 * |path|))| == |Entries(n)|
  {
    hide Inv, Shape, CellAt, Wrapper, OnPath, Mask, Entries;
    EmptyLength(path);
    WrapperUpdated(n, path);
    UpdatedLength(Empty, Wrapper(n, 5 * |path|), Mask(n.hash, 5 * |path|), Child(n), path);
  }

  lemma CollisionLength(n: Node, path: seq<nat>)
    requires n.Collision? && Inv(n, path)
    ensures |Entries(n)| == n.count
  {
    LeavesWalkable(n, path, 0);
  }

  lemma {:induction false} ExpandedLength(n: Node, a: Node, m: nat, depth: nat, shift: nat, leaf: Node,
          path: seq<nat>, i: nat)
    requires n.Bitmap? && a.Array? && Inv(n, path) && Inv(a, path) && depth == |path| && shift == 5 * depth
             && m < 32 && i <= 32
    requires !Bit(n.bitmap, m) && |path| <= 5
    requires a == Array(a.count, Expanded(n, shift, m, leaf)) && |Entries(leaf)| == 1
    ensures |CellsFrom(a, i, depth)| == |CellsFrom(n, i, depth)| + (if i <= m then 1 else 0)
    decreases 32 - i
  {
    hide Bit, One, Rank, Single, Entries, Inv, OnPath, Shr, And, Mask, Index;
    if i < 32 {
      ExpandedLength(n, a, m, depth, shift, leaf, path, i + 1);
      BitmapCell(n, i, path);
      if i != m {
        match CellAt(n, i, depth)
        case Leaf(e) => LeafLength(n, i, e, path);
        case _ =>
      }
    }
  }

  lemma LeafLength(n: Node, i: nat, e: Entry, path: seq<nat>)
    requires Inv(n, path) && !n.Collision? && i < 32 && |path| <= 5 && CellAt(n, i, |path|) == Leaf(e)
    ensures |Entries(Single(5 * |path| + 5, HashEq(e.key), e.key, e.val))| == 1
  {
    InvOfCell(n, path, i);
    SingleLength(HashEq(e.key), e.key, e.val, path + [i]);
  }

  lemma {:induction false} AssocLength(n: Node, key: Object, val: Object, path: seq<nat>)
    requires Inv(n, path) && OnPath(HashEq(key), path)
    ensures var r := Assoc(n, 5 * |path|, HashEq(key), key, val, path);
            |Entries(After(r.change, n))| == |Entries(n)| + (if r.added then 1 else 0)
    decreases 35 - 5 * |path|, 4
  {
    match n
    case Bitmap(_, _) => AssocBitmapLength(n, key, val, path);
    case Array(_, _) => AssocArrayLength(n, key, val, path);
    case Collision(_, _, _) => AssocCollisionLength(n, key, val, path);
  }

  lemma {:induction false} AssocLeafLength(n: Node, m: nat, v: Object, key: Object, val: Object, path: seq<nat>)
    requires n.Bitmap? && Inv(n, path) && OnPath(HashEq(key), path)
    requires m == Mask(HashEq(key), 5 * |path|) < 32 && Bit(n.bitmap, m)
    requires ValAny(n.pairs, Index(n.bitmap, m)) == Obj(v)
    ensures var r := AssocBitmap(n, 5 * |path|, HashEq(key), key, val, path);
            |Entries(After(r.change, n))| == |Entries(n)| + (if r.added then 1 else 0)
    decreases 35 - 5 * |path|, 0
  {
    hide Bit, One, Rank, And, Or, Shr, Equiv, HashEq, Mask, Inv, Shape, OnPath, CreateNode, AssocBitmap, CellAt,
        Entries;
    OnPathStep(HashEq(key), path);
    BitmapCell(n, m, path);
    AssocAtLeaf(n, m, v, key, val, path);
    var k0 := KeyAny(n.pairs, Index(n.bitmap, m)).o;
    if Equiv(key, k0) {
      if !Identical(val, v) { UpdatedLength(n, BitmapSet(n, m, Obj(val), path), m, Leaf(Entry(k0, val)), path); }
    } else {
      CreateNodeLength(k0, v, key, val, path + [m]);
      var child := CreateNode(5 * |path| + 5, k0, v, HashEq(key), key, val, path + [m]);
      UpdatedLength(n, BitmapSplit(n, m, child, path), m, Child(child), path);
    }
  }

  lemma {:induction false} AssocBitmapLength(n: Node, key: Object, val: Object, path: seq<nat>)
    requires n.Bitmap? && Inv(n, path) && OnPath(HashEq(key), path)
    ensures var r := AssocBitmap(n, 5 * |path|, HashEq(key), key, val, path);
            |Entries(After(r.change, n))| == |Entries(n)| + (if r.added then 1 else 0)
    decreases 35 - 5 * |path|, 1
  {
    hide Bit, One, Rank, And, Or, Shr, Mask, Inv, Shape, OnPath, Entries, AddPair, Equiv, BitmapSet, BitmapSplit;
    var s, h := 5 * |path|, HashEq(key);
    var m := Mask(h, s);
    MaskWidth(h, |path|);
    OnPathStep(h, path);
    TestBit(n.bitmap, m);
    BitmapCell(n, m, path);
    if Bit(n.bitmap, m) {
      var idx := Index(n.bitmap, m);
      match ValAny(n.pairs, idx) {
        case Sub(child) =>
          AssocLength(child, key, val, path + [m]);
          var r := Assoc(child, s + 5, h, key, val, path + [m]);
          if r.change.New? {
            UpdatedLength(n, BitmapSet(n, m, Sub(r.change.node), path), m, Child(r.change.node), path);
          }
        case Obj(v) =>
          AssocLeafLength(n, m, v, key, val, path);
      }
    } else {
      AddPairLength(n, m, key, val, path);
    }
  }

  lemma AddPairLength(n: Node, m: nat, key: Object, val: Object, path: seq<nat>)
    requires n.Bitmap? && Inv(n, path) && OnPath(HashEq(key), path)
    requires m == Mask(HashEq(key), 5 * |path|) < Width(|path|) <= 32 && !Bit(n.bitmap, m)
    ensures |Entries(AddPair(n, 5 * |path|, m, HashEq(key), key, val, path))| == |Entries(n)| + 1
  {
    hide Inv, Bit, One, Rank, And, Or, Shr, HashEq, Mask, BitmapInsert, OnPath, Shape, Width, BitCount, Entries,
        Expanded, Single;
    BitmapCell(n, m, path);
    CountIsRank(n.bitmap, 32);
    OnPathStep(HashEq(key), path);
    if BitCount(n.bitmap) < 16 {
      UpdatedLength(n, BitmapInsert(n, m, key, val, path), m, Leaf(Entry(key, val)), path);
    } else {
      AddExpandedLength(n, m, key, val, path);
    }
  }

  lemma AddExpandedLength(n: Node, m: nat, key: Object, val: Object, path: seq<nat>)
    requires n.Bitmap? && Inv(n, path) && OnPath(HashEq(key), path) && Rank(n.bitmap, 32) >= 16
    requires m == Mask(HashEq(key), 5 * |path|) < 32 && !Bit(n.bitmap, m)
    ensures var s := 5 * |path|;
            |Entries(Array(Rank(n.bitmap, 32) + 1, Expanded(n, s, m, Single(s + 5, HashEq(key), key, val))))|
              == |Entries(n)| + 1
  {
    hide Inv, Shape, Bit, One, Rank, And, Or, Shr, HashEq, Mask, OnPath, Entries, Single, Expanded, CellAt;
    var s, h := 5 * |path|, HashEq(key);
    ExpandedInv(n, path, h, key, val);
    BitmapCell(n, m, path);
    OnPathStep(h, path);
    SingleLength(h, key, val, path + [m]);
    var a := Array(Rank(n.bitmap, 32) + 1, Expanded(n, s, m, Single(s + 5, h, key, val)));
    EntriesByCells(n, path);
    EntriesByCells(a, path);
    ExpandedLength(n, a, m, |path|, s, Single(s + 5, h, key, val), path, 0);
  }

  lemma {:induction false} AssocArrayLength(n: Node, key: Object, val: Object, path: seq<nat>)
    requires n.Array? && Inv(n, path) && OnPath(HashEq(key), path)
    ensures var r := AssocArray(n, 5 * |path|, HashEq(key), key, val, path);
            |Entries(After(r.change, n))| == |Entries(n)| + (if r.added then 1 else 0)
    decreases 35 - 5 * |path|, 1
  {
    hide Mask, Inv, Shape, OnPath, Entries, Single;
    var s, h := 5 * |path|, HashEq(key);
    var m := Mask(h, s);
    MaskWidth(h, |path|);
    OnPathStep(h, path);
    ArrayCell(n, m, path);
    match n.slots[m]
    case NoSlot =>
      var leaf := Single(s + 5, h, key, val);
      SingleInv(h, key, val, path + [m]);
      SingleLength(h, key, val, path + [m]);
      UpdatedLength(n, ArraySet(n, n.count + 1, m, Slot(leaf), path), m, Child(leaf), path);
    case Slot(child) =>
      AssocLength(child, key, val, path + [m]);
      var r := Assoc(child, s + 5, h, key, val, path + [m]);
      if r.change.New? {
        UpdatedLength(n, ArraySet(n, n.count, m, Slot(r.change.node), path), m, Child(r.change.node), path);
      }
  }

  lemma {:induction false} AssocCollisionLength(n: Node, key: Object, val: Object, path: seq<nat>)
    requires n.Collision? && Inv(n, path) && OnPath(HashEq(key), path)
    ensures var r := AssocCollision(n, 5 * |path|, HashEq(key), key, val, path);
            |Entries(After(r.change, n))| == |Entries(n)| + (if r.added then 1 else 0)
    decreases 35 - 5 * |path|, 2
  {
    var s, h := 5 * |path|, HashEq(key);
    if h == n.hash {
      CollisionLength(n, path);
      CollisionLength(After(AssocCollision(n, s, h, key, val, path).change, n), path);
    } else {
      WrapperInv(n, h, path);
      WrapperLength(n, path);
      AssocBitmapLength(Wrapper(n, s), key, val, path);
    }
  }

  lemma {:induction false} CreateNodeLength(k1: Object, v1: Object, k2: Object, v2: Object, path: seq<nat>)
    requires 1 <= |path| <= 7 && OnPath(HashEq(k1), path) && OnPath(HashEq(k2), path) && !Equiv(k2, k1)
    ensures |Entries(CreateNode(5 * |path|, k1, v1, HashEq(k2), k2, v2, path))| == 2
    decreases 35 - 5 * |path|, 2
  {
    if HashEq(k1) == HashEq(k2) {
      CollisionLength(CreateNode(5 * |path|, k1, v1, HashEq(k2), k2, v2, path), path);
    } else {
      LeafSplitDepth(k1, k2, path);
      SingleInv(HashEq(k1), k1, v1, path);
      SingleLength(HashEq(k1), k1, v1, path);
      FindSingle(HashEq(k1), k1, v1, k2, path);
      EquivSameId(k1, k2);
      EquivSameId(k2, k1);
      var first := Single(5 * |path|, HashEq(k1), k1, v1);
      AssocBitmapFind(first, k2, v2, k2, path);
      AssocBitmapLength(first, k2, v2, path);
    }
  }

  // ---- without ----

  ghost predicate RemovedOne(n: Node, c: Change) {
    match c
    case Same => true
    case Gone => |Entries(n)| == 1
    case New(n') => |Entries(n')| == |Entries(n)| - 1
  }

  lemma {:induction false} WithoutLength(n: Node, key: Object, path: seq<nat>)
    requires Inv(n, path)
    ensures RemovedOne(n, Without(n, 5 * |path|, HashEq(key), key, path))
    decreases n, 1
  {
    match n
    case Bitmap(_, _) => WithoutBitmapLength(n, key, path);
    case Array(_, _) => WithoutArrayLength(n, key, path);
    case Collision(_, _, _) =>
      CollisionLength(n, path);
      var c := Without(n, 5 * |path|, HashEq(key), key, path);
      if c.New? { CollisionLength(c.node, path); }
  }

  lemma {:induction false} WithoutBitmapLength(n: Node, key: Object, path: seq<nat>)
    requires n.Bitmap? && Inv(n, path)
    ensures RemovedOne(n, WithoutBitmap(n, 5 * |path|, HashEq(key), key, path))
    decreases n, 0
  {
    hide Bit, One, Rank, And, Or, Xor, Shr, Mask, Inv, Shape, OnPath, Entries, Equiv, BitmapSet, BitmapRemove;
    var s, h := 5 * |path|, HashEq(key);
    var m := Mask(h, s);
    MaskWidth(h, |path|);
    TestBit(n.bitmap, m);
    BitmapCell(n, m, path);
    if Bit(n.bitmap, m) {
      var idx := Index(n.bitmap, m);
      match ValAny(n.pairs, idx) {
        case Sub(child) =>
          WithoutLength(child, key, path + [m]);
          match Without(child, s + 5, h, key, path + [m]) {
            case Same =>
            case New(node) => UpdatedLength(n, BitmapSet(n, m, Sub(node), path), m, Child(node), path);
            case Gone =>
              if n.bitmap == One(m) { OnlyCellLength(n, m, path); }
              else { UpdatedLength(n, BitmapRemove(n, m, path), m, Vacant, path); }
          }
        case Obj(_) =>
          if Equiv(key, KeyAny(n.pairs, idx).o) { UpdatedLength(n, BitmapRemove(n, m, path), m, Vacant, path); }
      }
    }
  }

  /** A bitmap node with a single position holds just that cell's entries. */
  lemma OnlyCellLength(n: Node, m: nat, path: seq<nat>)
    requires n.Bitmap? && Inv(n, path) && m < 32 && n.bitmap == One(m)
    ensures |Entries(n)| == |CellEntries(CellAt(n, m, |path|))|
  {
    EntriesByCells(n, path);
    OnlyCellFrom(n, m, path, 0);
  }

  lemma {:induction false} OnlyCellFrom(n: Node, m: nat, path: seq<nat>, i: nat)
    requires n.Bitmap? && Inv(n, path) && m < 32 && n.bitmap == One(m) && i <= 32
    ensures CellsFrom(n, i, |path|) == if i <= m then CellEntries(CellAt(n, m, |path|)) else []
    decreases 32 - i
  {
    if i < 32 { OnlyCellFrom(n, m, path, i + 1); BitOne(m, i); }
  }

  lemma {:induction false} WithoutArrayLength(n: Node, key: Object, path: seq<nat>)
    requires n.Array? && Inv(n, path)
    ensures RemovedOne(n, WithoutArray(n, 5 * |path|, HashEq(key), key, path))
    decreases n, 0
  {
    hide Mask, Inv, OnPath, Entries, Pack;
    var s, h := 5 * |path|, HashEq(key);
    var m := Mask(h, s);
    MaskWidth(h, |path|);
    ArrayCell(n, m, path);
    match n.slots[m]
    case NoSlot =>
    case Slot(child) =>
      WithoutLength(child, key, path + [m]);
      match Without(child, s + 5, h, key, path + [m]) {
        case Same =>
        case New(node) => UpdatedLength(n, ArraySet(n, n.count, m, Slot(node), path), m, Child(node), path);
        case Gone =>
          if n.count <= 8 {
            PackCells(n, |path|, m);
            UpdatedInv(n, Pack(n.slots, m), path, m, Vacant);
            UpdatedLength(n, Pack(n.slots, m), m, Vacant, path);
          } else {
            UpdatedLength(n, ArraySet(n, n.count - 1, m, NoSlot, path), m, Vacant, path);
          }
      }
  }

  // ---- membership ----

  lemma {:induction false} InCells(n: Node, e: Entry, path: seq<nat>, i: nat) returns (m: nat)
    requires !n.Collision? && Inv(n, path) && i <= 32 && e in CellsFrom(n, i, |path|)
    ensures i <= m < 32 && e in CellEntries(CellAt(n, m, |path|))
    decreases 32 - i
  {
    hide CellAt, CellEntries;
    if e in CellEntries(CellAt(n, i, |path|)) { m := i; } else { m := InCells(n, e, path, i + 1); }
  }

  lemma {:induction false} CellsHold(n: Node, e: Entry, path: seq<nat>, i: nat, m: nat)
    requires !n.Collision? && Inv(n, path) && i <= m < 32 && e in CellEntries(CellAt(n, m, |path|))
    ensures e in CellsFrom(n, i, |path|)
    decreases 32 - i
  {
    hide CellAt, CellEntries;
    if i < m { CellsHold(n, e, path, i + 1, m); }
  }

  /** An entry of the list lies on its hash path, and is what `find` returns for every equivalent key. */
  lemma {:induction false} EntryFound(n: Node, e: Entry, q: Object, path: seq<nat>)
    requires Inv(n, path) && e in Entries(n) && Equiv(q, e.key)
    ensures OnPath(HashEq(e.key), path) && Find(n, 5 * |path|, HashEq(q), q, path) == Some(e)
    decreases n
  {
    hide Equiv, Id, HashEq, Mask, Find, CellAt;
    Equivalence();
    if n.Collision? {
      LeavesWalkable(n, path, 0);
      FindCollision(n, q, path);
      var j :| 0 <= j < |Entries(n)| && Entries(n)[j] == e;
      FoundCollision(n, q, j, path);
    } else {
      EntriesByCells(n, path);
      var m := InCells(n, e, path, 0);
      InvOfCell(n, path, m);
      FindByCell(n, HashEq(q), q, path);
      match CellAt(n, m, |path|)
      case Leaf(_) => OnPathLast(HashEq(e.key), path, m);
      case Child(c) => EntryFound(c, e, q, path + [m]); OnPathLast(HashEq(e.key), path, m);
    }
  }

  lemma OnPathLast(h: Hash, path: seq<nat>, m: nat)
    requires OnPath(h, path + [m])
    ensures OnPath(h, path) && Mask(h, 5 * |path|) == m
  {
    assert (path + [m])[|path|] == m;
    forall d | 0 <= d < |path| ensures Mask(h, 5 * d) == path[d] { assert (path + [m])[d] == path[d]; }
  }

  lemma {:induction false} FoundEntry(n: Node, q: Object, path: seq<nat>)
    requires Inv(n, path)
    ensures match Find(n, 5 * |path|, HashEq(q), q, path)
            case None => true
            case Some(e) => e in Entries(n) && Equiv(q, e.key)
    decreases n
  {
    hide Equiv, Id, HashEq, Mask;
    if n.Collision? {
      LeavesWalkable(n, path, 0);
      var i := FindFrom(n, q, 0);
      if i != -1 { assert Entries(n)[i] == Entry(CollisionKey(n, i), CollisionVal(n, i).o); }
    } else {
      EntriesByCells(n, path);
      FindByCell(n, HashEq(q), q, path);
      var m := Mask(HashEq(q), 5 * |path|);
      var c := CellAt(n, m, |path|);
      if c.Child? { FoundEntry(c.node, q, path + [m]); }
      var f := Find(n, 5 * |path|, HashEq(q), q, path);
      if f.Some? { CellsHold(n, f.value, path, 0, m); }
    }
  }

  // ---- no two keys are equivalent ----

  ghost predicate Distinct(es: seq<Entry>) {
    forall i, j | 0 <= i < j < |es| :: Id(es[i].key) != Id(es[j].key)
  }

  lemma DistinctConcat(xs: seq<Entry>, ys: seq<Entry>)
    requires Distinct(xs) && Distinct(ys)
    requires forall x, y | x in xs && y in ys :: Id(x.key) != Id(y.key)
    ensures Distinct(xs + ys)
  {}

  lemma {:induction false} EntriesDistinct(n: Node, path: seq<nat>)
    requires Inv(n, path)
    ensures Distinct(Entries(n))
    decreases n, 33
  {
    if n.Collision? {
      LeavesWalkable(n, path, 0);
      forall i, j | 0 <= i < j < |Entries(n)| ensures Id(Entries(n)[i].key) != Id(Entries(n)[j].key) {
        EquivSameId(CollisionKey(n, i), CollisionKey(n, j));
      }
    } else {
      EntriesByCells(n, path);
      CellsDistinct(n, path, 0);
    }
  }

  lemma {:induction false} CellsDistinct(n: Node, path: seq<nat>, i: nat)
    requires !n.Collision? && Inv(n, path) && i <= 32
    ensures Distinct(CellsFrom(n, i, |path|))
    decreases n, 32 - i
  {
    hide Equiv, Id, HashEq, Mask, Distinct;
    if i < 32 {
      CellsDistinct(n, path, i + 1);
      var c := CellAt(n, i, |path|);
      InvOfCell(n, path, i);
      if c.Child? { EntriesDistinct(c.node, path + [i]); }
      else { ShortDistinct(CellEntries(c)); }
      CellsApart(n, path, i);
      DistinctConcat(CellEntries(c), CellsFrom(n, i + 1, |path|));
    } else {
      ShortDistinct(CellsFrom(n, i, |path|));
    }
  }

  lemma ShortDistinct(es: seq<Entry>)
    requires |es| <= 1
    ensures Distinct(es)
  {}

  lemma KeysApart(n: Node, path: seq<nat>, i: nat, x: Entry, y: Entry)
    requires !n.Collision? && Inv(n, path) && i < 32
    requires x in CellEntries(CellAt(n, i, |path|)) && y in CellsFrom(n, i + 1, |path|)
    ensures Id(x.key) != Id(y.key)
  {
    hide CellsFrom, CellEntries, CellAt, Mask, Inv;
    var j := InCells(n, y, path, i + 1);
    CellMask(n, x, i, path);
    CellMask(n, y, j, path);
    EquivSameId(x.key, y.key);
  }

  lemma CellsApart(n: Node, path: seq<nat>, i: nat)
    requires !n.Collision? && Inv(n, path) && i < 32
    ensures forall x, y | x in CellEntries(CellAt(n, i, |path|))
            && y in CellsFrom(n, i + 1, |path|) :: Id(x.key) != Id(y.key)
  {
    hide CellsFrom, CellEntries, CellAt, Id;
    forall x, y | x in CellEntries(CellAt(n, i, |path|)) && y in CellsFrom(n, i + 1, |path|)
        ensures Id(x.key) != Id(y.key) {
      KeysApart(n, path, i, x, y);
    }
  }

  lemma CellMask(n: Node, e: Entry, m: nat, path: seq<nat>)
    requires !n.Collision? && Inv(n, path) && m < 32 && e in CellEntries(CellAt(n, m, |path|))
    ensures Mask(HashEq(e.key), 5 * |path|) == m
  {
    InvOfCell(n, path, m);
    var c := CellAt(n, m, |path|);
    if c.Child? { EquivSameId(e.key, e.key); EntryFound(c.node, e, e.key, path + [m]); }
    OnPathLast(HashEq(e.key), path, m);
  }
}
