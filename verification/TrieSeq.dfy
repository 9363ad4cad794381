/**
 The sequence walker (`nodeSeq`, `newNodeSeq`, `newArrayNodeSeq`, `First`, `Next`) and the list of
 entries it visits.  `Entries` lists a node's entries in array order; the walker yields exactly that
 list, skipping the empty subtrees that removals leave behind.
 */
module TrieSeq {
  import opened Words
  import opened Objects
  import opened Trie
  import opened TrieOps

  function Entries(n: Node): seq<Entry>
    decreases n, 0
  {
    match n
    case Bitmap(_, ps) => PairEntries(ps, 0)
    case Array(_, slots) => SlotEntries(slots, 0)
    case Collision(_, _, ps) => PairEntries(ps, 0)
  }

  function PairEntries(ps: seq<Any>, i: nat): seq<Entry>
    decreases ps, |ps| - i
  {
    if i + 1 >= |ps| then [] else
      assert (ps decreases to ps[i + 1]);
      match ps[i + 1]
      case Sub(child) => Entries(child) + PairEntries(ps, i + 2)
      case Obj(v) => (if ps[i].Obj? then [Entry(ps[i].o, v)] else []) + PairEntries(ps, i + 2)
  }

  function SlotEntries(slots: seq<Slot>, i: nat): seq<Entry>
    decreases slots, |slots| - i
  {
    if i >= |slots| then [] else
      assert (slots decreases to slots[i]);
      match slots[i]
      case NoSlot => SlotEntries(slots, i + 1)
      case Slot(child) => Entries(child) + SlotEntries(slots, i + 1)
  }

  // ---- the walker ----

  datatype Seq =
    | NodeSeq(pairs: seq<Any>, i: nat, s: Option<Seq>)
    | ArrayNodeSeq(slots: seq<Slot>, i: nat, inner: Seq)

  function NodeSeqOf(n: Node): Option<Seq>
    decreases n, 0
  {
    match n
    case Bitmap(_, ps) => NewNodeSeq(ps, 0, None)
    case Array(_, slots) => NewArrayNodeSeq(slots, 0, None)
    case Collision(_, _, ps) => NewNodeSeq(ps, 0, None)
  }

  function NewNodeSeq(ps: seq<Any>, i: nat, s: Option<Seq>): Option<Seq>
    decreases ps, |ps| - i
  {
    if s.Some? then Some(NodeSeq(ps, i, s))
    else if i + 1 >= |ps| then None
    else
      assert (ps decreases to ps[i + 1]);
      match ps[i + 1]
      case Obj(_) => Some(NodeSeq(ps, i, None))
      case Sub(child) =>
        var ns := NodeSeqOf(child);
        if ns.Some? then Some(NodeSeq(ps, i + 2, ns)) else NewNodeSeq(ps, i + 2, None)
  }

  function NewArrayNodeSeq(slots: seq<Slot>, i: nat, s: Option<Seq>): Option<Seq>
    decreases slots, |slots| - i
  {
    if s.Some? then Some(ArrayNodeSeq(slots, i, s.value))
    else if i >= |slots| then None
    else
      assert (slots decreases to slots[i]);
      match slots[i]
      case NoSlot => NewArrayNodeSeq(slots, i + 1, None)
      case Slot(child) =>
        var ns := NodeSeqOf(child);
        if ns.Some? then Some(ArrayNodeSeq(slots, i + 1, ns.value)) else NewArrayNodeSeq(slots, i + 1, None)
  }

  function First(s: Seq): Entry
    requires Walking(s)
  {
    match s
    case NodeSeq(ps, i, None) => Entry(ps[i].o, ps[i + 1].o)
    case NodeSeq(_, _, Some(t)) => First(t)
    case ArrayNodeSeq(_, _, t) => First(t)
  }

  function Next(s: Seq): Option<Seq> {
    match s
    case NodeSeq(ps, i, None) => NewNodeSeq(ps, i + 2, None)
    case NodeSeq(ps, i, Some(t)) => NewNodeSeq(ps, i, Next(t))
    case ArrayNodeSeq(slots, i, t) => NewArrayNodeSeq(slots, i, Next(t))
  }

  /** The loops of the two constructors, for a walk with no inner sequence. */
  method NewNodeSeqLoop(ps: seq<Any>, i: nat) returns (r: Option<Seq>)
    requires |ps| % 2 == 0 && i % 2 == 0
    ensures r == NewNodeSeq(ps, i, None)
  {
    var j := i;
    while j < |ps|
      invariant j % 2 == 0 && NewNodeSeq(ps, i, None) == NewNodeSeq(ps, j, None)
    {
      match ps[j + 1] {
        case Sub(child) =>
          var ns := NodeSeqOf(child);
          if ns.Some? { return Some(NodeSeq(ps, j + 2, ns)); }
        case Obj(_) => return Some(NodeSeq(ps, j, None));
      }
      j := j + 2;
    }
    return None;
  }

  method NewArrayNodeSeqLoop(slots: seq<Slot>, i: nat) returns (r: Option<Seq>)
    ensures r == NewArrayNodeSeq(slots, i, None)
  {
    var j := i;
    while j < |slots|
      invariant NewArrayNodeSeq(slots, i, None) == NewArrayNodeSeq(slots, j, None)
    {
      if slots[j].Slot? {
        var ns := NodeSeqOf(slots[j].node);
        if ns.Some? { return Some(ArrayNodeSeq(slots, j + 1, ns.value)); }
      }
      j := j + 1;
    }
    return None;
  }

  /** Every pair has an object as its key, all the way down: what the walker relies on. */
  predicate Walkable(n: Node)
    decreases n, 0
  {
    match n
    case Bitmap(_, ps) => WalkablePairs(ps, 0)
    case Array(_, slots) => WalkableSlots(slots, 0)
    case Collision(_, _, ps) => WalkablePairs(ps, 0)
  }

  predicate WalkablePairs(ps: seq<Any>, i: nat)
    decreases ps, |ps| - i
  {
    i + 1 < |ps| ==>
      assert (ps decreases to ps[i + 1]);
      ps[i].Obj? && (ps[i + 1].Sub? ==> Walkable(ps[i + 1].node)) && WalkablePairs(ps, i + 2)
  }

  predicate WalkableSlots(slots: seq<Slot>, i: nat)
    decreases slots, |slots| - i
  {
    i < |slots| ==>
      assert (slots decreases to slots[i]);
      (slots[i].Slot? ==> Walkable(slots[i].node)) && WalkableSlots(slots, i + 1)
  }

  predicate Walking(s: Seq) {
    match s
    case NodeSeq(ps, i, None) => i + 1 < |ps| && ps[i + 1].Obj? && WalkablePairs(ps, i)
    case NodeSeq(ps, i, Some(t)) => Walking(t) && WalkablePairs(ps, i)
    case ArrayNodeSeq(slots, i, t) => Walking(t) && WalkableSlots(slots, i)
  }

  /** The entries a walk has still to visit. */
  function Remaining(s: Seq): seq<Entry> {
    match s
    case NodeSeq(ps, i, None) => PairEntries(ps, i)
    case NodeSeq(ps, i, Some(t)) => Remaining(t) + PairEntries(ps, i)
    case ArrayNodeSeq(slots, i, t) => Remaining(t) + SlotEntries(slots, i)
  }

  ghost predicate Walks(r: Option<Seq>, es: seq<Entry>) {
    match r
    case None => es == []
    case Some(s) => es != [] && Walking(s) && Remaining(s) == es
  }

  lemma {:induction false} NodeSeqWalks(n: Node)
    requires Walkable(n)
    ensures Walks(NodeSeqOf(n), Entries(n))
    decreases n, 0
  {
    match n
    case Bitmap(_, ps) => PairsWalk(ps, 0);
    case Array(_, slots) => SlotsWalk(slots, 0);
    case Collision(_, _, ps) => PairsWalk(ps, 0);
  }

  lemma {:induction false} PairsWalk(ps: seq<Any>, i: nat)
    requires WalkablePairs(ps, i)
    ensures Walks(NewNodeSeq(ps, i, None), PairEntries(ps, i))
    decreases ps, |ps| - i
  {
    if i + 1 < |ps| {
      if ps[i + 1].Sub? {
        NodeSeqWalks(ps[i + 1].node);
        PairsWalk(ps, i + 2);
      }
    }
  }

  lemma {:induction false} SlotsWalk(slots: seq<Slot>, i: nat)
    requires WalkableSlots(slots, i)
    ensures Walks(NewArrayNodeSeq(slots, i, None), SlotEntries(slots, i))
    decreases slots, |slots| - i
  {
    if i < |slots| {
      if slots[i].Slot? { NodeSeqWalks(slots[i].node); }
      SlotsWalk(slots, i + 1);
    }
  }

  /** One step: `First` is the next entry, and `Next` walks the others or is nil when there are none. */
  lemma {:induction false} StepWalks(s: Seq)
    requires Walking(s)
    ensures Remaining(s) != [] && First(s) == Remaining(s)[0]
    ensures Walks(Next(s), Remaining(s)[1..])
  {
    match s
    case NodeSeq(ps, i, None) => PairsWalk(ps, i + 2);
    case NodeSeq(ps, i, Some(t)) =>
      StepWalks(t);
      PairsWalk(ps, i);
      assert Remaining(s)[1..] == Remaining(t)[1..] + PairEntries(ps, i);
    case ArrayNodeSeq(slots, i, t) =>
      StepWalks(t);
      SlotsWalk(slots, i);
      assert Remaining(s)[1..] == Remaining(t)[1..] + SlotEntries(slots, i);
  }

  // ---- entries, one cell at a time ----

  function CellEntries(c: Cell): seq<Entry> {
    match c
    case Vacant => []
    case Leaf(e) => [e]
    case Child(n) => Entries(n)
  }

  function CellsFrom(n: Node, i: nat, ghost depth: nat): seq<Entry>
    requires !n.Collision? && Shape(n, depth) && i <= 32
    decreases 32 - i
  {
    if i == 32 then [] else CellEntries(CellAt(n, i, depth)) + CellsFrom(n, i + 1, depth)
  }

  lemma {:induction false} EntriesByCells(n: Node, path: seq<nat>)
    requires Inv(n, path) && !n.Collision?
    ensures Entries(n) == CellsFrom(n, 0, |path|)
  {
    if n.Bitmap? { PairsByCells(n, path, 0); } else { SlotsByCells(n, path, 0); }
  }

  lemma {:induction false} InvWalkable(n: Node, path: seq<nat>)
    requires Inv(n, path)
    ensures Walkable(n)
    decreases n, 33
  {
    match n
    case Bitmap(_, _) => PairsWalkable(n, path, 0);
    case Array(_, _) => SlotsWalkable(n, path, 0);
    case Collision(_, _, _) => LeavesWalkable(n, path, 0);
  }

  lemma {:induction false} PairsWalkable(n: Node, path: seq<nat>, i: nat)
    requires n.Bitmap? && Inv(n, path) && i <= 32
    ensures WalkablePairs(n.pairs, 2 * Rank(n.bitmap, i))
    decreases n, 32 - i
  {
    hide Bit, One;
    if i < 32 {
      PairsWalkable(n, path, i + 1);
      BitmapCell(n, i, path);
      if Bit(n.bitmap, i) {
        var r := Rank(n.bitmap, i);
        var v := ValAny(n.pairs, r);
        if v.Sub? { InvWalkable(v.node, path + [i]); }
        assert n.pairs[2 * r] == KeyAny(n.pairs, r) && n.pairs[2 * r + 1] == v;
      }
    }
  }

  lemma {:induction false} SlotsWalkable(n: Node, path: seq<nat>, i: nat)
    requires n.Array? && Inv(n, path) && i <= 32
    ensures WalkableSlots(n.slots, i)
    decreases n, 32 - i
  {
    if i < 32 {
      SlotsWalkable(n, path, i + 1);
      ArrayCell(n, i, path);
      if n.slots[i].Slot? { InvWalkable(n.slots[i].node, path + [i]); }
    }
  }

  lemma {:induction false} LeavesWalkable(n: Node, path: seq<nat>, j: nat)
    requires n.Collision? && Inv(n, path) && j <= n.count
    ensures WalkablePairs(n.pairs, 2 * j)
    ensures |PairEntries(n.pairs, 2 * j)| == n.count - j
    ensures forall k | j <= k < n.count ::
              CollisionVal(n, k).Obj? && PairEntries(n.pairs, 2 * j)[k - j]
                == Entry(CollisionKey(n, k), CollisionVal(n, k).o)
    decreases n.count - j
  {
    if j < n.count {
      LeavesWalkable(n, path, j + 1);
      assert n.pairs[2 * j] == KeyAny(n.pairs, j) && n.pairs[2 * j + 1] == ValAny(n.pairs, j);
      assert 2 * (j + 1) == 2 * j + 2;
    }
  }

  lemma {:induction false} PairsByCells(n: Node, path: seq<nat>, i: nat)
    requires n.Bitmap? && Inv(n, path) && i <= 32
    ensures PairEntries(n.pairs, 2 * Rank(n.bitmap, i)) == CellsFrom(n, i, |path|)
    decreases 32 - i
  {
    hide Bit, One;
    if i < 32 {
      PairsByCells(n, path, i + 1);
      BitmapCell(n, i, path);
      if Bit(n.bitmap, i) {
        var r := Rank(n.bitmap, i);
        assert n.pairs[2 * r] == KeyAny(n.pairs, r) && n.pairs[2 * r + 1] == ValAny(n.pairs, r);
      }
    }
  }

  lemma {:induction false} SlotsByCells(n: Node, path: seq<nat>, i: nat)
    requires n.Array? && Inv(n, path) && i <= 32
    ensures SlotEntries(n.slots, i) == CellsFrom(n, i, |path|)
    decreases 32 - i
  {
    if i < 32 { SlotsByCells(n, path, i + 1); }
  }
}
