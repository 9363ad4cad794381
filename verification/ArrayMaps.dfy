/**
 Array maps (`pkg/lang/persistentarraymap.go`): small maps searched from the front, keyword-shaped maps
 whose updates are a bounded chain of deltas, the conversion to hash maps, the duplicate-collapsing
 constructor and transients. Two adjacent slots of `keyVals` are one `Entry`.
 */
module ArrayMaps {
  import opened Objects
  import HashMaps
  import Laws = TrieLaws

  const KEYWORD_DELTA_MAX := 8

  /** `arrayMapHashThreshold` and `arrayMapKeywordThreshold`, in entries. */
  const HASH_THRESHOLD := 8
  const KEYWORD_THRESHOLD := 64

  datatype Delta = NoDelta | Delta(prev: Delta, value: Object, index: nat, depth: nat)

  datatype Map =
    | Array(entries: seq<Entry>)
    | Shaped(keys: seq<Object>, values: seq<Object>, delta: Delta)
    | Hash(h: HashMaps.HashMap)

  // ---- arrays of entries ----

  predicate DistinctKeys(es: seq<Entry>) {
    forall i, j :: 0 <= i < j < |es| ==> !Equiv(es[i].key, es[j].key)
  }

  /** The first entry with an equal key, or the length. */
  function Position(es: seq<Entry>, k: Object): (i: nat)
    ensures i <= |es|
    ensures i < |es| ==> Equiv(es[i].key, k)
    ensures forall j :: 0 <= j < i ==> !Equiv(es[j].key, k)
  {
    if es == [] || Equiv(es[0].key, k) then 0 else 1 + Position(es[1..], k)
  }

  function Lookup(es: seq<Entry>, k: Object): Option<Entry> {
    var i := Position(es, k);
    if i < |es| then Some(es[i]) else None
  }

  // ---- shaped maps ----

  function Chain(d: Delta): nat { if d.NoDelta? then 0 else 1 + Chain(d.prev) }

  /** Recorded depths are chain lengths, within the fixed buffer, and indexes are in range. */
  predicate DeltaOk(d: Delta, n: nat) {
    d.NoDelta? || (d.index < n && d.depth == Chain(d) <= KEYWORD_DELTA_MAX && DeltaOk(d.prev, n))
  }

  /** `keywordValueAt`: the newest delta of the index, else the base value. */
  function ValueAt(values: seq<Object>, d: Delta, i: nat): Object
    requires i < |values|
  {
    if d.NoDelta? then values[i] else if d.index == i then d.value else ValueAt(values, d.prev, i)
  }

  /** The deltas applied to the base values, oldest first. */
  function Materialized(values: seq<Object>, d: Delta): (r: seq<Object>)
    requires DeltaOk(d, |values|)
    ensures |r| == |values|
  {
    if d.NoDelta? then values else Materialized(values, d.prev)[d.index := d.value]
  }

  lemma {:induction false} NewestFirst(values: seq<Object>, d: Delta, i: nat)
    requires DeltaOk(d, |values|) && i < |values|
    ensures ValueAt(values, d, i) == Materialized(values, d)[i]
  {
    if d.Delta? {
      NewestFirst(values, d.prev, i);
      assert Materialized(values, d) == Materialized(values, d.prev)[d.index := d.value];
    }
  }

  /** The delta `j` places back. */
  function Back(d: Delta, j: nat): Delta { if j == 0 || d.NoDelta? then d else Back(d.prev, j - 1) }

  lemma {:induction false} BackOk(d: Delta, j: nat, n: nat)
    requires DeltaOk(d, n) && j <= Chain(d)
    ensures DeltaOk(Back(d, j), n) && Chain(Back(d, j)) == Chain(d) - j
    ensures j < Chain(d) ==> Back(d, j).Delta? && Back(d, j).prev == Back(d, j + 1)
  {
    if j > 0 { BackOk(d.prev, j - 1, n); }
  }

  /** The loop of `materializedKeywordValues`, with its buffer of eight: every write is in range. */
  method Materialize(values: seq<Object>, delta: Delta) returns (r: array<Object>)
    requires DeltaOk(delta, |values|)
    ensures fresh(r) && r[..] == Materialized(values, delta)
  {
    r := new Object[|values|](i requires 0 <= i < |values| => values[i]);
    var deltas := new Delta[KEYWORD_DELTA_MAX](_ => NoDelta);
    var count, d := 0, delta;
    while d.Delta?
      invariant 0 <= count <= Chain(delta) <= KEYWORD_DELTA_MAX && d == Back(delta, count)
      invariant r[..] == values
      invariant forall j :: 0 <= j < count ==> deltas[j] == Back(delta, j)
      decreases Chain(delta) - count
    {
      BackOk(delta, count, |values|);
      deltas[count] := d;
      count := count + 1;
      d := d.prev;
    }
    BackOk(delta, count, |values|);
    var i := count;
    while i > 0
      invariant 0 <= i <= count
      invariant DeltaOk(Back(delta, i), |values|) && r[..] == Materialized(values, Back(delta, i))
      invariant forall j :: 0 <= j < count ==> deltas[j] == Back(delta, j)
    {
      i := i - 1;
      BackOk(delta, i, |values|);
      r[deltas[i].index] := deltas[i].value;
    }
  }

  function IndexOf(keys: seq<Object>, k: Object): (i: nat)
    ensures i <= |keys|
    ensures i < |keys| ==> keys[i] == k
    ensures forall j :: 0 <= j < i ==> keys[j] != k
  {
    if keys == [] || keys[0] == k then 0 else 1 + IndexOf(keys[1..], k)
  }

  predicate ShapeOk(keys: seq<Object>, values: seq<Object>, d: Delta) {
    && 0 < |keys| == |values|
    && (forall i :: 0 <= i < |keys| ==> keys[i].Keyword?)
    && (forall i, j :: 0 <= i < j < |keys| ==> keys[i] != keys[j])
    && DeltaOk(d, |values|)
  }

  /** `interleavedKeyVals` */
  function Interleaved(keys: seq<Object>, values: seq<Object>, d: Delta): (es: seq<Entry>)
    requires |keys| == |values|
    ensures |es| == |keys| && forall i :: 0 <= i < |es| ==> es[i] == Entry(keys[i], ValueAt(values, d, i))
  {
    seq(|keys|, i requires 0 <= i < |keys| => Entry(keys[i], ValueAt(values, d, i)))
  }

  // ---- maps ----

  ghost predicate Valid(m: Map) {
    match m
    case Array(es) => DistinctKeys(es)
    case Shaped(keys, values, d) => ShapeOk(keys, values, d)
    case Hash(h) => HashMaps.Valid(h)
  }

  function EntryAt(m: Map, k: Object): Option<Entry>
    requires Valid(m)
  {
    match m
    case Array(es) => Lookup(es, k)
    case Shaped(keys, values, d) =>
      if !k.Keyword? then None
      else
        var i := IndexOf(keys, k);
        if i < |keys| then Some(Entry(k, ValueAt(values, d, i))) else None
    case Hash(h) => HashMaps.EntryAt(h, k)
  }

  /** Keyword lookup compares identities and skips keys that are not keywords. */
  function ValAtKeyword(m: Map, k: Object, def: Object): Object
    requires Valid(m) && k.Keyword?
  {
    match m
    case Array(es) => KeywordFrom(es, k, def)
    case Shaped(keys, values, d) =>
      var i := IndexOf(keys, k);
      if i < |keys| then ValueAt(values, d, i) else def
    case Hash(h) => HashMaps.ValAtKeyword(h, k, def)
  }

  function KeywordFrom(es: seq<Entry>, k: Object, def: Object): Object {
    if es == [] then def
    else if es[0].key.Keyword? && es[0].key == k then es[0].val
    else KeywordFrom(es[1..], k, def)
  }

  /** `canBePersistentArrayMap` */
  predicate CanBeArray(es: seq<Entry>) {
    |es| <= HASH_THRESHOLD || (|es| <= KEYWORD_THRESHOLD && forall i :: HASH_THRESHOLD <= i < |es| ==>
      es[i].key.Keyword?)
  }

  /** `NewPersistentHashMap` */
  function HashOf(es: seq<Entry>): (h: HashMaps.HashMap)
    ensures HashMaps.Valid(h)
    decreases |es|
  {
    if es == [] then HashMaps.EmptyAbs(); HashMaps.EmptyMap
    else HashMaps.Assoc(HashOf(es[..|es| - 1]), es[|es| - 1].key, es[|es| - 1].val)
  }

  /** `NewMapUniqueKeys` */
  function UniqueKeys(es: seq<Entry>): Map { if CanBeArray(es) then Array(es) else Hash(HashOf(es)) }

  function Threshold(k: Object): nat { if k.Keyword? then KEYWORD_THRESHOLD else HASH_THRESHOLD }

  function AssocShaped(keys: seq<Object>, values: seq<Object>, d: Delta, i: nat, v: Object): Map
    requires ShapeOk(keys, values, d) && i < |keys|
  {
    if ValueAt(values, d, i) == v then Shaped(keys, values, d)
    else if d.Delta? && d.index == i then Shaped(keys, values, Delta(d.prev, v, i, d.depth))
    else if d.NoDelta? || d.depth < KEYWORD_DELTA_MAX then
      Shaped(keys, values, Delta(d, v, i, if d.NoDelta? then 1 else d.depth + 1))
    else Shaped(keys, Materialized(values, d)[i := v], NoDelta)
  }

  function Assoc(m: Map, k: Object, v: Object): Map
    requires Valid(m)
  {
    match m
    case Shaped(keys, values, d) =>
      var i := IndexOf(keys, k);
      if k.Keyword? && i < |keys| then AssocShaped(keys, values, d, i, v)
      else UniqueKeys(Interleaved(keys, values, d) + [Entry(k, v)])
    case Array(es) =>
      var i := Position(es, k);
      if i < |es| then if es[i].val == v then m else Array(es[i := Entry(es[i].key, v)])
      else if |es| < Threshold(k) then Array(es + [Entry(k, v)])
      else Hash(HashMaps.Assoc(HashOf(es), k, v))
    case Hash(h) => Hash(HashMaps.Assoc(h, k, v))
  }

  function Without(m: Map, k: Object): Map
    requires Valid(m)
  {
    match m
    case Shaped(keys, values, d) =>
      var i := IndexOf(keys, k);
      if !k.Keyword? || i == |keys| then m
      else
        var es := Interleaved(keys, values, d);
        UniqueKeys(es[..i] + es[i + 1..])
    case Array(es) =>
      var i := Position(es, k);
      if i == |es| then m else Array(es[..i] + es[i + 1..])
    case Hash(h) => Hash(HashMaps.Without(h, k))
  }

  function Count(m: Map): int {
    match m
    case Array(es) => |es|
    case Shaped(keys, _, _) => |keys|
    case Hash(h) => h.count
  }

  // ---- the map laws ----

  lemma EquivLaws(a: Object, b: Object, c: Object)
    ensures Equiv(a, a) && (Equiv(a, b) <==> Equiv(b, a)) && (Equiv(a, b) && Equiv(b, c) ==> Equiv(a, c))
    ensures a.Keyword? ==> (Equiv(a, b) <==> a == b)
  {}

  /** In an array without repeated keys, any entry with an equal key is the one found. */
  lemma LookupIs(es: seq<Entry>, k: Object, i: nat)
    requires DistinctKeys(es) && i < |es| && Equiv(es[i].key, k)
    ensures Position(es, k) == i && Lookup(es, k) == Some(es[i])
  {
    var j := Position(es, k);
    EquivLaws(es[i].key, k, es[j].key);
    EquivLaws(es[j].key, k, es[i].key);
  }

  lemma LookupNone(es: seq<Entry>, k: Object)
    requires forall i :: 0 <= i < |es| ==> !Equiv(es[i].key, k)
    ensures Lookup(es, k) == None
  {}

  /** One entry is updated, added or removed; the others are found as before. */
  lemma ArrayUpdated(es: seq<Entry>, i: nat, v: Object, q: Object)
    requires DistinctKeys(es) && i < |es|
    ensures var next := es[i := Entry(es[i].key, v)];
            DistinctKeys(next) && Lookup(next, q) == if Equiv(es[i].key, q) then Some(next[i]) else Lookup(es, q)
  {
    var next := es[i := Entry(es[i].key, v)];
    var j := Position(es, q);
    if Equiv(es[i].key, q) { LookupIs(next, q, i); LookupIs(es, q, i); }
    else if j < |es| { LookupIs(next, q, j); }
    else { LookupNone(next, q); }
  }

  lemma ArrayAdded(es: seq<Entry>, e: Entry, q: Object)
    requires DistinctKeys(es) && Lookup(es, e.key) == None
    ensures DistinctKeys(es + [e]) && Lookup(es + [e], q) == if Equiv(e.key, q) then Some(e) else Lookup(es, q)
  {
    var next := es + [e];
    var j := Position(es, q);
    if j < |es| {
      LookupIs(next, q, j);
      EquivLaws(es[j].key, q, e.key);
      EquivLaws(e.key, q, q);
    } else if Equiv(e.key, q) {
      LookupIs(next, q, |es|);
    } else {
      LookupNone(next, q);
    }
  }

  lemma ArrayRemoved(es: seq<Entry>, i: nat, q: Object)
    requires DistinctKeys(es) && i < |es|
    ensures var next := es[..i] + es[i + 1..];
            DistinctKeys(next) && Lookup(next, q) == if Equiv(es[i].key, q) then None else Lookup(es, q)
  {
    var next := es[..i] + es[i + 1..];
    var j := Position(es, q);
    if Equiv(es[i].key, q) {
      forall k | 0 <= k < |next| ensures !Equiv(next[k].key, q) {
        var o := if k < i then k else k + 1;
        EquivLaws(es[o].key, q, es[i].key);
        EquivLaws(es[i].key, q, q);
        EquivLaws(es[i].key, q, es[o].key);
      }
      LookupNone(next, q);
    } else if j < |es| {
      LookupIs(next, q, if j < i then j else j - 1);
    } else {
      LookupNone(next, q);
    }
  }

  lemma {:induction false} HashOfFinds(es: seq<Entry>, q: Object)
    requires DistinctKeys(es)
    ensures HashMaps.EntryAt(HashOf(es), q) == Lookup(es, q)
    decreases |es|
  {
    hide HashMaps.Assoc, HashMaps.EntryAt, HashMaps.Valid;
    if es == [] {
      EmptyFinds(q);
    } else {
      var init, e := es[..|es| - 1], es[|es| - 1];
      HashOfFinds(init, q);
      HashOfFinds(init, e.key);
      HashMaps.AssocLookup(HashOf(init), e.key, e.val, q);
      EquivSameId(e.key, q);
      LookupNone(init, e.key);
      ArrayAdded(init, e, q);
      assert init + [e] == es;
    }
  }

  lemma EmptyFinds(q: Object)
    ensures HashMaps.Valid(HashMaps.EmptyMap) && HashMaps.EntryAt(HashMaps.EmptyMap, q) == None
  {}

  lemma UniqueKeysFinds(es: seq<Entry>, q: Object)
    requires DistinctKeys(es)
    ensures Valid(UniqueKeys(es)) && EntryAt(UniqueKeys(es), q) == Lookup(es, q)
  {
    hide HashMaps.Valid, HashMaps.EntryAt;
    HashOfFinds(es, q);
  }

  lemma InterleavedFinds(keys: seq<Object>, values: seq<Object>, d: Delta, q: Object)
    requires ShapeOk(keys, values, d)
    ensures DistinctKeys(Interleaved(keys, values, d))
    ensures Lookup(Interleaved(keys, values, d), q) == EntryAt(Shaped(keys, values, d), q)
  {
    var es := Interleaved(keys, values, d);
    if q.Keyword? && IndexOf(keys, q) < |keys| {
      LookupIs(es, q, IndexOf(keys, q));
    } else {
      LookupNone(es, q);
    }
  }

  lemma ShapedAssoc(keys: seq<Object>, values: seq<Object>, d: Delta, i: nat, v: Object, q: Object)
    requires ShapeOk(keys, values, d) && i < |keys|
    ensures var m := AssocShaped(keys, values, d, i, v);
            && m.Shaped? && m.keys == keys
            && ShapeOk(keys, m.values, m.delta)
            && EntryAt(m, q) == if keys[i] == q then Some(Entry(q, v)) else EntryAt(Shaped(keys, values, d), q)
  {
    var m := AssocShaped(keys, values, d, i, v);
    if d.Delta? && d.depth == KEYWORD_DELTA_MAX {
      forall j | 0 <= j < |keys|
        ensures ValueAt(values, d, j) == Materialized(values, d)[j]
      {
        NewestFirst(values, d, j);
      }
    }
    var j := IndexOf(keys, q);
    if j < |keys| { assert keys[i] == q <==> i == j; }
  }

  /** The law of `assoc`, for all three representations and the conversions between them. */
  lemma AssocLaw(m: Map, k: Object, v: Object, q: Object)
    requires Valid(m)
    ensures Valid(Assoc(m, k, v))
    ensures EntryAt(Assoc(m, k, v), q) == if Equiv(k, q) then Some(Laws.Stored(EntryAt(m, k), k, v)) else EntryAt(m, q)
  {
    hide HashMaps.Assoc, HashMaps.EntryAt, HashMaps.Valid;
    match m
    case Hash(h) =>
      HashMaps.AssocLookup(h, k, v, q);
      EquivSameId(k, q);
    case Array(es) =>
      var i := Position(es, k);
      if i < |es| {
        EquivLaws(es[i].key, k, q);
        EquivLaws(k, es[i].key, q);
        EquivLaws(es[i].key, q, q);
        ArrayUpdated(es, i, v, q);
        if Equiv(k, q) { LookupIs(es, q, i); }
      } else {
        ArrayAdded(es, Entry(k, v), q);
        HashOfFinds(es, q);
        HashOfFinds(es, k);
        HashMaps.AssocLookup(HashOf(es), k, v, q);
        EquivSameId(k, q);
      }
    case Shaped(keys, values, d) =>
      EquivLaws(k, q, q);
      if k.Keyword? && IndexOf(keys, k) < |keys| {
        ShapedAssoc(keys, values, d, IndexOf(keys, k), v, q);
      } else {
        var es := Interleaved(keys, values, d);
        InterleavedFinds(keys, values, d, k);
        InterleavedFinds(keys, values, d, q);
        ArrayAdded(es, Entry(k, v), q);
        UniqueKeysFinds(es + [Entry(k, v)], q);
      }
  }

  /** The law of `dissoc`. */
  lemma WithoutLaw(m: Map, k: Object, q: Object)
    requires Valid(m)
    ensures Valid(Without(m, k))
    ensures EntryAt(Without(m, k), q) == if Equiv(k, q) then None else EntryAt(m, q)
  {
    hide HashMaps.Without, HashMaps.EntryAt, HashMaps.Valid;
    match m
    case Hash(h) =>
      HashMaps.WithoutLookup(h, k, q);
      EquivSameId(k, q);
    case Array(es) => ArrayWithout(es, k, q);
    case Shaped(keys, values, d) =>
      var es := Interleaved(keys, values, d);
      InterleavedFinds(keys, values, d, q);
      EquivLaws(k, q, q);
      if k.Keyword? && IndexOf(keys, k) < |keys| {
        var i := IndexOf(keys, k);
        ArrayRemoved(es, i, q);
        UniqueKeysFinds(es[..i] + es[i + 1..], q);
      } else if Equiv(k, q) && q.Keyword? {
        assert k == q;
      }
  }

  lemma ArrayWithout(es: seq<Entry>, k: Object, q: Object)
    requires DistinctKeys(es)
    ensures var i := Position(es, k);
            var next := if i == |es| then es else es[..i] + es[i + 1..];
            DistinctKeys(next) && Lookup(next, q) == if Equiv(k, q) then None else Lookup(es, q)
  {
    var i := Position(es, k);
    if i < |es| {
      EquivLaws(es[i].key, k, q);
      EquivLaws(k, es[i].key, q);
      EquivLaws(es[i].key, q, q);
      EquivLaws(es[i].key, q, k);
      EquivLaws(k, q, q);
      ArrayRemoved(es, i, q);
    } else {
      var j := Position(es, q);
      if j < |es| {
        EquivLaws(es[j].key, q, k);
        EquivLaws(k, q, q);
      }
    }
  }

  /** The keyword fast path answers as the generic lookup does. */
  lemma ValAtKeywordAgrees(m: Map, k: Object, def: Object)
    requires Valid(m) && k.Keyword?
    ensures ValAtKeyword(m, k, def) == if EntryAt(m, k).Some? then EntryAt(m, k).value.val else def
  {
    hide HashMaps.EntryAt, HashMaps.Valid, HashMaps.ValAtKeyword;
    match m
    case Hash(h) => HashKeyword(h, k, def);
    case Array(es) => KeywordFromFinds(es, k, def);
    case _ =>
  }

  lemma HashKeyword(h: HashMaps.HashMap, k: Object, def: Object)
    requires HashMaps.Valid(h) && k.Keyword?
    ensures HashMaps.ValAtKeyword(h, k, def) == if HashMaps.EntryAt(h, k).Some?
            then HashMaps.EntryAt(h, k).value.val else def
  {
    hide HashMaps.ValAtKeyword, HashMaps.EntryAt;
    HashMaps.ValAtKeywordAgrees(h, k, def);
  }

  lemma {:induction false} KeywordFromFinds(es: seq<Entry>, k: Object, def: Object)
    requires k.Keyword?
    ensures KeywordFrom(es, k, def) == if Lookup(es, k).Some? then Lookup(es, k).value.val else def
  {
    if es != [] { KeywordFromFinds(es[1..], k, def); }
  }

  // ---- refinement of a finite map ----

  ghost function View(m: Map): map<Object, Entry>
    requires Valid(m)
  {
    match m
    case Array(es) => HashMaps.MapOf(es)
    case Shaped(keys, values, d) => HashMaps.MapOf(Interleaved(keys, values, d))
    case Hash(h) => HashMaps.Abs(h)
  }

  lemma MapOfFinds(es: seq<Entry>, q: Object)
    requires DistinctKeys(es)
    ensures Lookup(es, q) == if Id(q) in HashMaps.MapOf(es) then Some(HashMaps.MapOf(es)[Id(q)]) else None
    ensures |HashMaps.MapOf(es)| == |es|
    ensures Id(q) == q || q !in HashMaps.MapOf(es)
  {
    hide HashMaps.MapOf;
    forall i, j | 0 <= i < j < |es| ensures Id(es[i].key) != Id(es[j].key) { EquivSameId(es[i].key, es[j].key); }
    HashMaps.MapOfSize(es);
    if q in HashMaps.MapOf(es) { HashMaps.MapOfFrom(es, q); }
    if Id(q) in HashMaps.MapOf(es) {
      HashMaps.MapOfFrom(es, Id(q));
      var e := HashMaps.MapOf(es)[Id(q)];
      var i :| 0 <= i < |es| && es[i] == e;
      EquivSameId(e.key, q);
      LookupIs(es, q, i);
    } else {
      var i := Position(es, q);
      if i < |es| { HashMaps.MapOfHas(es, es[i]); EquivSameId(es[i].key, q); }
    }
  }

  /** Every representation answers for a finite map, counts its size, and its domain holds class representatives. */
  lemma ViewFinds(m: Map, q: Object)
    requires Valid(m)
    ensures EntryAt(m, q) == if Id(q) in View(m) then Some(View(m)[Id(q)]) else None
    ensures Count(m) == |View(m)|
    ensures Id(q) == q || q !in View(m)
  {
    hide HashMaps.MapOf, HashMaps.Abs, HashMaps.EntryAt, HashMaps.Valid, Lookup, Id;
    match m
    case Array(es) => MapOfFinds(es, q);
    case Shaped(keys, values, d) =>
      InterleavedFinds(keys, values, d, q);
      MapOfFinds(Interleaved(keys, values, d), q);
    case Hash(h) =>
      HashMaps.EntryAtRefines(h, q);
      HashMaps.CountRefines(h);
      if q in View(m) { HashMaps.IdId(h, q); }
  }

  /** Lookups determine the view. */
  lemma ViewByLookup(m: Map, a: map<Object, Entry>)
    requires Valid(m)
    requires forall c | c in a :: Id(c) == c
    requires forall c | Id(c) == c :: EntryAt(m, c) == if c in a then Some(a[c]) else None
    ensures View(m) == a
  {
    hide EntryAt, View, Id, Valid;
    forall c | c in View(m) || c in a ensures c in View(m) && c in a && View(m)[c] == a[c] { ViewFinds(m, c); }
  }

  lemma AssocRefines(m: Map, k: Object, v: Object)
    requires Valid(m)
    ensures Valid(Assoc(m, k, v))
    ensures View(Assoc(m, k, v)) == View(m)[Id(k) := Entry(if Id(k) in View(m) then View(m)[Id(k)].key else k, v)]
  {
    hide EntryAt, View, Id, Valid, Assoc;
    AssocLaw(m, k, v, k);
    ViewFinds(m, k);
    var a := View(m)[Id(k) := Entry(if Id(k) in View(m) then View(m)[Id(k)].key else k, v)];
    HashMaps.IdTwice(k);
    forall c | c in a ensures Id(c) == c { ViewFinds(m, c); }
    forall c | Id(c) == c ensures EntryAt(Assoc(m, k, v), c) == if c in a then Some(a[c]) else None {
      AssocLaw(m, k, v, c);
      EquivSameId(k, c);
      ViewFinds(m, c);
    }
    ViewByLookup(Assoc(m, k, v), a);
  }

  lemma WithoutRefines(m: Map, k: Object)
    requires Valid(m)
    ensures Valid(Without(m, k))
    ensures View(Without(m, k)) == View(m) - {Id(k)}
  {
    hide EntryAt, View, Id, Valid, Without;
    WithoutLaw(m, k, k);
    var a := View(m) - {Id(k)};
    forall c | c in a ensures Id(c) == c { ViewFinds(m, c); }
    forall c | Id(c) == c ensures EntryAt(Without(m, k), c) == if c in a then Some(a[c]) else None {
      WithoutLaw(m, k, c);
      EquivSameId(k, c);
      ViewFinds(m, c);
    }
    ViewByLookup(Without(m, k), a);
  }

  // ---- runs ----

  function Step(m: Map, op: HashMaps.Op): Map
    requires Valid(m)
  {
    match op
    case Put(k, v) => Assoc(m, k, v)
    case Delete(k) => Without(m, k)
  }

  lemma StepValid(m: Map, op: HashMaps.Op)
    requires Valid(m)
    ensures Valid(Step(m, op))
  {
    hide Valid, Assoc, Without, View;
    match op
    case Put(k, v) => AssocRefines(m, k, v);
    case Delete(k) => WithoutRefines(m, k);
  }

  function Run(m: Map, ops: seq<HashMaps.Op>): (r: Map)
    requires Valid(m)
    ensures Valid(r)
    decreases |ops|
  {
    if ops == [] then m
    else
      var init := Run(m, ops[..|ops| - 1]);
      StepValid(init, ops[|ops| - 1]);
      Step(init, ops[|ops| - 1])
  }

  ghost function ModelStep(a: map<Object, Entry>, op: HashMaps.Op): map<Object, Entry> {
    match op
    case Put(k, v) => a[Id(k) := Entry(if Id(k) in a then a[Id(k)].key else k, v)]
    case Delete(k) => a - {Id(k)}
  }

  ghost function ModelRun(a: map<Object, Entry>, ops: seq<HashMaps.Op>): map<Object, Entry>
    decreases |ops|
  {
    if ops == [] then a else ModelStep(ModelRun(a, ops[..|ops| - 1]), ops[|ops| - 1])
  }

  /** From an array, shaped or hash map, any run refines the same run on a finite map. */
  lemma {:induction false} RunRefines(m: Map, ops: seq<HashMaps.Op>, q: Object)
    requires Valid(m)
    ensures View(Run(m, ops)) == ModelRun(View(m), ops)
    ensures Count(Run(m, ops)) == |ModelRun(View(m), ops)|
    ensures EntryAt(Run(m, ops), q) == if Id(q) in ModelRun(View(m), ops)
            then Some(ModelRun(View(m), ops)[Id(q)]) else None
    decreases |ops|
  {
    hide Valid, Assoc, Without, View, EntryAt, Id, Count;
    if ops != [] {
      var init, last := ops[..|ops| - 1], ops[|ops| - 1];
      RunRefines(m, init, q);
      match last {
        case Put(k, v) => AssocRefines(Run(m, init), k, v);
        case Delete(k) => WithoutRefines(Run(m, init), k);
      }
    }
    ViewFinds(Run(m, ops), q);
  }
}
