/**
 `PersistentHashMap`: the trie behind a map value.  Every map that any run of `Assoc` and `Without`
 can reach refines a finite map from equality classes to entries.
 */
module HashMaps {
  import opened Objects
  import opened Trie
  import Cells = TrieCells
  import Ops = TrieOps
  import Laws = TrieLaws
  import opened TrieSeq
  import opened TrieEntries

  datatype HashMap = HashMap(count: int, root: Option<Node>)

  const EmptyMap := HashMap(0, None)

  ghost predicate Valid(m: HashMap) {
    match m.root
    case None => m.count == 0
    case Some(n) => Inv(n, []) && m.count == |Entries(n)|
  }

  function Assoc(m: HashMap, key: Object, val: Object): (m': HashMap)
    requires Valid(m)
    ensures Valid(m')
  {
    Ops.EmptyInv([]);
    var t := if m.root.None? then Empty else m.root.value;
    var r := Ops.Assoc(t, 0, HashEq(key), key, val, []);
    AssocLength(t, key, val, []);
    if m.root.Some? && r.change.Same? then AssocSame(t, key, val); m
    else HashMap(if r.added then m.count + 1 else m.count, Some(Ops.After(r.change, t)))
  }

  lemma AssocSame(n: Node, key: Object, val: Object)
    requires Inv(n, []) && Ops.Assoc(n, 0, HashEq(key), key, val, []).change.Same?
    ensures !Ops.Assoc(n, 0, HashEq(key), key, val, []).added
  {
    AssocLength(n, key, val, []);
  }

  function Without(m: HashMap, key: Object): (m': HashMap)
    requires Valid(m)
    ensures Valid(m')
  {
    if m.root.None? then m else
      WithoutLength(m.root.value, key, []);
      match Ops.Without(m.root.value, 0, HashEq(key), key, [])
      case Same => m
      case Gone => HashMap(m.count - 1, None)
      case New(n) => HashMap(m.count - 1, Some(n))
  }

  function EntryAt(m: HashMap, key: Object): Option<Entry>
    requires Valid(m)
  {
    if m.root.None? then None else Ops.Find(m.root.value, 0, HashEq(key), key, [])
  }

  function ValAtDefault(m: HashMap, key: Object, notFound: Object): Object
    requires Valid(m)
  {
    match EntryAt(m, key)
    case Some(e) => e.val
    case None => notFound
  }

  // ---- the abstract map ----

  ghost function MapOf(es: seq<Entry>): map<Object, Entry> {
    if es == [] then map[] else
      var last := es[|es| - 1];
      MapOf(es[..|es| - 1])[Id(last.key) := last]
  }

  lemma {:induction false} MapOfHas(es: seq<Entry>, e: Entry)
    requires Distinct(es) && e in es
    ensures Id(e.key) in MapOf(es) && MapOf(es)[Id(e.key)] == e
  {
    hide Id;
    if e in es[..|es| - 1] { MapOfHas(es[..|es| - 1], e); }
  }

  lemma {:induction false} MapOfFrom(es: seq<Entry>, c: Object)
    requires Distinct(es) && c in MapOf(es)
    ensures MapOf(es)[c] in es && Id(MapOf(es)[c].key) == c
  {
    hide Id;
    if c in MapOf(es[..|es| - 1]) { MapOfFrom(es[..|es| - 1], c); }
  }

  ghost function EntriesOf(m: HashMap): seq<Entry>
    requires Valid(m)
  {
    if m.root.None? then [] else Entries(m.root.value)
  }

  ghost function Abs(m: HashMap): map<Object, Entry>
    requires Valid(m)
  {
    MapOf(EntriesOf(m))
  }

  lemma AbsDistinct(m: HashMap)
    requires Valid(m)
    ensures Distinct(EntriesOf(m))
  {
    if m.root.Some? { EntriesDistinct(m.root.value, []); }
  }

  /** Lookup is lookup in the abstract map: the stored key object and value of the key's class. */
  lemma EntryAtRefines(m: HashMap, key: Object)
    requires Valid(m)
    ensures EntryAt(m, key) == if Id(key) in Abs(m) then Some(Abs(m)[Id(key)]) else None
  {
    hide Ops.Find, Entries, Inv, Equiv, Id, HashEq;
    Laws.Equivalence();
    AbsDistinct(m);
    if m.root.Some? {
      var n := m.root.value;
      FoundEntry(n, key, []);
      var f := EntryAt(m, key);
      if f.Some? { MapOfHas(Entries(n), f.value); }
      if Id(key) in Abs(m) {
        MapOfFrom(Entries(n), Id(key));
        EntryFound(n, Abs(m)[Id(key)], key, []);
      }
    }
  }

  lemma AbsByLookup(m: HashMap, a: map<Object, Entry>)
    requires Valid(m)
    requires forall c | c in a :: Id(c) == c
    requires forall c | Id(c) == c :: EntryAt(m, c) == if c in a then Some(a[c]) else None
    ensures Abs(m) == a
  {
    hide EntryAt, Id;
    forall c | c in Abs(m) || c in a ensures c in Abs(m) && c in a && Abs(m)[c] == a[c] {
      if c in Abs(m) { IdId(m, c); }
      EntryAtRefines(m, c);
    }
  }

  lemma IdId(m: HashMap, c: Object)
    requires Valid(m) && c in Abs(m)
    ensures Id(c) == c
  {
    AbsDistinct(m);
    MapOfFrom(EntriesOf(m), c);
  }

  lemma AbsLookup(m: HashMap, c: Object)
    requires Valid(m) && Id(c) == c
    ensures EntryAt(m, c) == if c in Abs(m) then Some(Abs(m)[c]) else None
  {
    EntryAtRefines(m, c);
  }

  // ---- the map laws ----

  /** `Assoc` updates one class of the abstract map, keeping an old key object, and nothing else. */
  lemma AssocRefines(m: HashMap, key: Object, val: Object)
    requires Valid(m)
    ensures Abs(Assoc(m, key, val)) == Abs(m)[Id(key) := Laws.Stored(EntryAt(m, key), key, val)]
  {
    hide Ops.Find, Inv, Entries, Id, HashEq, Abs;
    var a := Abs(m)[Id(key) := Laws.Stored(EntryAt(m, key), key, val)];
    forall c | c in a ensures Id(c) == c { if c in Abs(m) { IdId(m, c); } else { IdTwice(key); } }
    forall c | Id(c) == c ensures EntryAt(Assoc(m, key, val), c) == if c in a then Some(a[c]) else None {
      AssocLookup(m, key, val, c);
      AbsLookup(m, c);
    }
    AbsByLookup(Assoc(m, key, val), a);
  }

  lemma IdTwice(o: Object)
    ensures Id(Id(o)) == Id(o)
  {}

  lemma AssocLookup(m: HashMap, key: Object, val: Object, q: Object)
    requires Valid(m)
    ensures EntryAt(Assoc(m, key, val), q) ==
            if Id(key) == Id(q) then Some(Laws.Stored(EntryAt(m, key), key, val)) else EntryAt(m, q)
  {
    hide Ops.Find, Inv, Entries, Equiv, Id, HashEq, Ops.Assoc;
    Laws.Equivalence();
    Laws.FindEmpty(HashEq(q), q, []);
    Laws.FindEmpty(HashEq(key), key, []);
    Laws.AssocFind(if m.root.None? then Empty else m.root.value, key, val, q, []);
  }

  /** `Without` deletes one class of the abstract map and nothing else. */
  lemma WithoutRefines(m: HashMap, key: Object)
    requires Valid(m)
    ensures Abs(Without(m, key)) == Abs(m) - {Id(key)}
  {
    hide Ops.Find, Inv, Entries, Id, HashEq, Abs;
    var a := Abs(m) - {Id(key)};
    forall c | c in a ensures Id(c) == c { IdId(m, c); }
    forall c | Id(c) == c ensures EntryAt(Without(m, key), c) == if c in a then Some(a[c]) else None {
      WithoutLookup(m, key, c);
      AbsLookup(m, c);
    }
    AbsByLookup(Without(m, key), a);
  }

  lemma WithoutLookup(m: HashMap, key: Object, q: Object)
    requires Valid(m)
    ensures EntryAt(Without(m, key), q) == if Id(key) == Id(q) then None else EntryAt(m, q)
  {
    hide Ops.Find, Inv, Entries, Equiv, Id, HashEq;
    Laws.Equivalence();
    if m.root.Some? { Laws.WithoutFind(m.root.value, key, q, []); }
  }

  /** The stored count is the size of the abstract map. */
  lemma CountRefines(m: HashMap)
    requires Valid(m)
    ensures m.count == |Abs(m)|
  {
    AbsDistinct(m);
    MapOfSize(EntriesOf(m));
  }

  lemma {:induction false} MapOfSize(es: seq<Entry>)
    requires Distinct(es)
    ensures |MapOf(es)| == |es|
  {
    if |es| > 0 {
      var init, last := es[..|es| - 1], es[|es| - 1];
      MapOfSize(init);
      if Id(last.key) in MapOf(init) { MapOfFrom(init, Id(last.key)); }
    }
  }

  // ---- runs ----

  datatype Op = Put(key: Object, val: Object) | Delete(key: Object)

  function Run(ops: seq<Op>): (m: HashMap)
    ensures Valid(m)
  {
    if ops == [] then EmptyMap else
      var m := Run(ops[..|ops| - 1]);
      match ops[|ops| - 1]
      case Put(k, v) => Assoc(m, k, v)
      case Delete(k) => Without(m, k)
  }

  /** The same run on a finite map; the first key object of a class stays until the class is deleted. */
  ghost function Model(ops: seq<Op>): map<Object, Entry> {
    if ops == [] then map[] else
      var a := Model(ops[..|ops| - 1]);
      match ops[|ops| - 1]
      case Put(k, v) => a[Id(k) := Entry(if Id(k) in a then a[Id(k)].key else k, v)]
      case Delete(k) => a - {Id(k)}
  }

  /** Every reachable hash map refines the finite map that the same run builds. */
  lemma {:induction false} RunRefines(ops: seq<Op>)
    ensures Abs(Run(ops)) == Model(ops)
    ensures Run(ops).count == |Model(ops)|
    ensures forall k :: EntryAt(Run(ops), k) == if Id(k) in Model(ops) then Some(Model(ops)[Id(k)]) else None
  {
    hide Assoc, Without, Abs, Id, EntryAt, Valid;
    if ops != [] {
      var init, last := ops[..|ops| - 1], ops[|ops| - 1];
      RunRefines(init);
      match last
      case Put(k, v) => AssocRefines(Run(init), k, v);
      case Delete(k) => WithoutRefines(Run(init), k);
    } else {
      EmptyAbs();
    }
    CountRefines(Run(ops));
    forall k ensures EntryAt(Run(ops), k) == if Id(k) in Model(ops) then Some(Model(ops)[Id(k)]) else None {
      EntryAtRefines(Run(ops), k);
    }
  }

  lemma EmptyAbs()
    ensures Valid(EmptyMap) && Abs(EmptyMap) == map[]
  {}

  // ---- the keyword lookup ----

  function FindKeyword(n: Node, shift: nat, hash: Hash, key: Object, ghost path: seq<nat>): Option<Object>
    requires Inv(n, path) && shift == 5 * |path| && key.Keyword?
    decreases n
  {
    match n
    case Bitmap(bitmap, pairs) =>
      MaskWidth(hash, |path|);
      var m := Mask(hash, shift);
      W.TestBit(bitmap, m);
      if W.And(bitmap, W.One(m)) == 0 then None else
        var idx := Cells.Index(bitmap, m);
        Ops.BitmapCell(n, m, path);
        match ValAny(pairs, idx) {
          case Sub(child) => FindKeyword(child, shift + 5, hash, key, path + [m])
          case Obj(v) =>
            var candidate := KeyAny(pairs, idx).o;
            if candidate.Keyword? && key == candidate then Some(v) else None
        }
    case Array(_, slots) =>
      MaskWidth(hash, |path|);
      var m := Mask(hash, shift);
      Ops.ArrayCell(n, m, path);
      (match slots[m]
       case NoSlot => None
       case Slot(child) => FindKeyword(child, shift + 5, hash, key, path + [m]))
    case Collision(h, _, _) =>
      if hash != h then None else KeywordFrom(n, key, 0)
  }

  import W = Words

  function KeywordFrom(n: Node, key: Object, i: nat): (r: Option<Object>)
    requires n.Collision? && i <= n.count && |n.pairs| == 2 * n.count
    requires forall j | 0 <= j < n.count :: KeyAny(n.pairs, j).Obj? && ValAny(n.pairs, j).Obj?
    decreases n.count - i
  {
    if i == n.count then None
    else
      var candidate := CollisionKey(n, i);
      if candidate.Keyword? && key == candidate then Some(ValAny(n.pairs, i).o) else KeywordFrom(n, key, i + 1)
  }

  lemma {:induction false} KeywordFromFinds(n: Node, key: Object, i: nat)
    requires n.Collision? && i <= n.count && |n.pairs| == 2 * n.count && key.Keyword?
    requires forall j | 0 <= j < n.count :: KeyAny(n.pairs, j).Obj? && ValAny(n.pairs, j).Obj?
    ensures var j := Ops.FindFrom(n, key, i);
            KeywordFrom(n, key, i) == if j == -1 then None else Some(ValAny(n.pairs, j).o)
    decreases n.count - i
  {
    if i < n.count { KeywordFromFinds(n, key, i + 1); }
  }

  /** The specialised keyword lookup returns what the generic lookup returns. */
  lemma {:induction false} FindKeywordAgrees(n: Node, key: Object, path: seq<nat>)
    requires Inv(n, path) && key.Keyword?
    ensures FindKeyword(n, 5 * |path|, HashEq(key), key, path) ==
            match Ops.Find(n, 5 * |path|, HashEq(key), key, path)
            case Some(e) => Some(e.val)
            case None => None
    decreases n
  {
    hide W.Bit, W.One, W.Rank, W.And, Shape, Mask, OnPath;
    var hash := HashEq(key);
    MaskWidth(hash, |path|);
    var m := Mask(hash, 5 * |path|);
    match n
    case Bitmap(_, pairs) =>
      W.TestBit(n.bitmap, m);
      Ops.BitmapCell(n, m, path);
      if W.Bit(n.bitmap, m) {
        var v := ValAny(pairs, Cells.Index(n.bitmap, m));
        if v.Sub? { FindKeywordAgrees(v.node, key, path + [m]); }
      }
    case Array(_, slots) =>
      Ops.ArrayCell(n, m, path);
      if slots[m].Slot? { FindKeywordAgrees(slots[m].node, key, path + [m]); }
    case Collision(h, _, _) =>
      Laws.FindCollision(n, key, path);
      if hash != h { Laws.MissCollision(n, key, path); } else { KeywordFromFinds(n, key, 0); }
  }

  function ValAtKeyword(m: HashMap, key: Object, notFound: Object): Object
    requires Valid(m) && key.Keyword?
  {
    if m.root.None? then notFound else
      match FindKeyword(m.root.value, 0, HashEq(key), key, [])
      case Some(v) => v
      case None => notFound
  }

  lemma ValAtKeywordAgrees(m: HashMap, key: Object, notFound: Object)
    requires Valid(m) && key.Keyword?
    ensures ValAtKeyword(m, key, notFound) == ValAtDefault(m, key, notFound)
  {
    if m.root.Some? { FindKeywordAgrees(m.root.value, key, []); }
  }

  // ---- walking the map ----

  function SeqOf(m: HashMap): Option<Seq> {
    if m.root.None? then None else NodeSeqOf(m.root.value)
  }

  /**
   The loop behind `Reduce` and `ReduceInit`: following `Next` from `Seq` visits every entry of the
   abstract map exactly once and stops after exactly `count` entries.
   */
  method Walk(m: HashMap) returns (visited: seq<Entry>)
    requires Valid(m)
    ensures |visited| == m.count && Distinct(visited)
    ensures MapOf(visited) == Abs(m)
  {
    AbsDistinct(m);
    ghost var all := EntriesOf(m);
    visited := [];
    if m.root.Some? {
      InvWalkable(m.root.value, []);
      NodeSeqWalks(m.root.value);
    }
    var s := SeqOf(m);
    while s.Some?
      invariant visited <= all && Walks(s, all[|visited|..])
      decreases |all| - |visited|
    {
      StepWalks(s.value);
      visited := visited + [First(s.value)];
      s := Next(s.value);
    }
    assert visited == all;
  }
}
