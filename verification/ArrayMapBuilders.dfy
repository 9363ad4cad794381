/**
 The two ways of building an array map in place (`pkg/lang/persistentarraymap.go`): the constructor that
 collapses repeated keys, and transients. Both are compared with folding the persistent operations.
 */
module ArrayMapBuilders {
  import opened Objects
  import opened ArrayMaps
  import HashMaps

  // ---- NewPersistentArrayMapAsIfByAssoc ----

  /** The value of the last entry with an equal key. */
  function LastVal(es: seq<Entry>, k: Object): Option<Object>
    decreases |es|
  {
    if es == [] then None
    else if Equiv(k, es[|es| - 1].key) then Some(es[|es| - 1].val)
    else LastVal(es[..|es| - 1], k)
  }

  /** The first key of a class and its last value. */
  function FirstKeyLastVal(es: seq<Entry>, k: Object): Option<Entry> {
    var i, v := Position(es, k), LastVal(es, k);
    if i < |es| && v.Some? then Some(Entry(es[i].key, v.value)) else None
  }

  /** Whether an equal key is among the first `n`. */
  predicate Has(es: seq<Entry>, n: nat, k: Object)
    requires n <= |es|
  {
    exists j :: 0 <= j < n && Equiv(k, es[j].key)
  }

  /** Whether the entry at `i` repeats no earlier key. */
  predicate First(es: seq<Entry>, i: nat)
    requires i < |es|
  {
    !Has(es, i, es[i].key)
  }

  /** The first occurrences among the first `n` entries, in order, each with the last value of its key. */
  function Collapsed(es: seq<Entry>, n: nat): (r: seq<Entry>)
    requires n <= |es|
    ensures |r| <= n
  {
    if n == 0 then []
    else if First(es, n - 1) then Collapsed(es, n - 1) + [Entry(es[n - 1].key, LastOf(es, n - 1))]
    else Collapsed(es, n - 1)
  }

  /** What the backward scan from the end of `es` down to `i` finds. */
  function LastOf(es: seq<Entry>, i: nat): Object
    requires i < |es|
  {
    var v := LastVal(es, es[i].key);
    if v.Some? then v.value else es[i].val
  }

  /** The keys of `Collapsed` are, up to equality, exactly the keys seen. */
  lemma {:induction false} CollapsedKeys(es: seq<Entry>, n: nat, k: Object)
    requires n <= |es|
    ensures Has(es, n, k) <==> Has(Collapsed(es, n), |Collapsed(es, n)|, k)
  {
    if n > 0 {
      CollapsedKeys(es, n - 1, k);
      var prior, last := Collapsed(es, n - 1), es[n - 1];
      if First(es, n - 1) {
        HasMore(prior, Entry(last.key, LastOf(es, n - 1)), k);
      } else {
        if Equiv(k, last.key) { HasClass(es, n - 1, k, last.key); }
      }
    }
  }

  lemma HasMore(es: seq<Entry>, e: Entry, k: Object)
    ensures Has(es + [e], |es| + 1, k) <==> Has(es, |es|, k) || Equiv(k, e.key)
  {
    var all := es + [e];
    assert forall j :: 0 <= j < |es| ==> all[j] == es[j];
    assert all[|es|] == e;
  }

  lemma HasClass(es: seq<Entry>, n: nat, k: Object, q: Object)
    requires n <= |es| && Has(es, n, q) && Equiv(k, q)
    ensures Has(es, n, k)
  {
    var j :| 0 <= j < n && Equiv(q, es[j].key);
    EquivLaws(k, q, es[j].key);
  }

  /** Where an entry of the result comes from. */
  lemma {:induction false} CollapsedEntry(es: seq<Entry>, n: nat, i: nat) returns (j: nat)
    requires n <= |es| && i < |Collapsed(es, n)|
    ensures j < n && First(es, j) && Collapsed(es, n)[i] == Entry(es[j].key, LastOf(es, j))
  {
    var prior := Collapsed(es, n - 1);
    if i < |prior| { j := CollapsedEntry(es, n - 1, i); } else { j := n - 1; }
  }

  lemma {:induction false} CollapsedDistinct(es: seq<Entry>, n: nat)
    requires n <= |es|
    ensures DistinctKeys(Collapsed(es, n))
  {
    if n > 0 {
      CollapsedDistinct(es, n - 1);
      var prior := Collapsed(es, n - 1);
      if First(es, n - 1) {
        CollapsedKeys(es, n - 1, es[n - 1].key);
        forall j | 0 <= j < |prior| ensures !Equiv(prior[j].key, es[n - 1].key) {
          EquivLaws(prior[j].key, es[n - 1].key, prior[j].key);
        }
      }
    }
  }

  /** The collapsed array holds, for every key, its first key object and its last value. */
  lemma CollapsedFinds(es: seq<Entry>, q: Object)
    ensures Lookup(Collapsed(es, |es|), q) == FirstKeyLastVal(es, q)
  {
    var r := Collapsed(es, |es|);
    CollapsedDistinct(es, |es|);
    CollapsedKeys(es, |es|, q);
    var i := Position(r, q);
    LastValFound(es, q);
    if i < |r| {
      var j := CollapsedEntry(es, |es|, i);
      FirstIsPosition(es, j, q);
      LastValClass(es, es[j].key, q);
      LastValFound(es, es[j].key);
    } else {
      PositionMeans(es, q);
    }
  }

  lemma PositionMeans(es: seq<Entry>, q: Object)
    ensures Position(es, q) < |es| <==> Has(es, |es|, q)
  {
    var p := Position(es, q);
    if p < |es| { EquivLaws(es[p].key, q, q); }
    forall j | 0 <= j < |es| ensures Equiv(q, es[j].key) <==> Equiv(es[j].key, q) { EquivLaws(q, es[j].key, q); }
  }

  lemma FirstIsPosition(es: seq<Entry>, j: nat, q: Object)
    requires j < |es| && First(es, j) && Equiv(es[j].key, q)
    ensures Position(es, q) == j
  {
    forall k | 0 <= k < j ensures !Equiv(es[k].key, q) {
      EquivLaws(es[k].key, q, q);
      EquivLaws(es[j].key, q, es[k].key);
    }
  }

  lemma {:induction false} LastValFound(es: seq<Entry>, q: Object)
    ensures LastVal(es, q).Some? <==> Position(es, q) < |es|
    decreases |es|
  {
    if es != [] {
      var init, last := es[..|es| - 1], es[|es| - 1];
      LastValFound(init, q);
      EquivLaws(q, last.key, q);
      var p, p' := Position(es, q), Position(init, q);
      if p' < |init| { assert es[p'] == init[p']; }
      if p < |init| { assert es[p] == init[p]; }
    }
  }

  lemma {:induction false} LastValClass(es: seq<Entry>, k: Object, q: Object)
    requires Equiv(k, q)
    ensures LastVal(es, k) == LastVal(es, q)
    decreases |es|
  {
    if es != [] {
      var init, last := es[..|es| - 1], es[|es| - 1];
      LastValClass(init, k, q);
      EquivLaws(k, q, last.key);
      EquivLaws(q, k, last.key);
    }
  }

  /** Folding the persistent `Assoc` over the entries, from the empty map. */
  function Folded(es: seq<Entry>): (m: Map)
    ensures Valid(m)
    decreases |es|
  {
    if es == [] then Array([])
    else
      var init, e := Folded(es[..|es| - 1]), es[|es| - 1];
      AssocRefines(init, e.key, e.val);
      Assoc(init, e.key, e.val)
  }

  lemma {:induction false} FoldedFinds(es: seq<Entry>, q: Object)
    ensures EntryAt(Folded(es), q) == FirstKeyLastVal(es, q)
    decreases |es|
  {
    hide Valid, Assoc, EntryAt;
    if es != [] {
      var init, e := es[..|es| - 1], es[|es| - 1];
      FoldedFinds(init, q);
      FoldedFinds(init, e.key);
      AssocLaw(Folded(init), e.key, e.val, q);
      FirstKeyStep(init, e, q);
      assert init + [e] == es;
    } else {
      EmptyArray(q);
    }
  }

  lemma EmptyArray(q: Object)
    ensures EntryAt(Array([]), q) == None
  {}

  /** One more entry: the class of its key gets the new value and keeps a key it already had. */
  lemma FirstKeyStep(es: seq<Entry>, e: Entry, q: Object)
    ensures FirstKeyLastVal(es + [e], q) ==
            if !Equiv(e.key, q) then FirstKeyLastVal(es, q)
            else Some(Entry(if FirstKeyLastVal(es, e.key).Some? then FirstKeyLastVal(es, e.key).value.key
              else e.key, e.val))
  {
    var all := es + [e];
    assert all[..|all| - 1] == es;
    EquivLaws(e.key, q, q);
    PositionStep(es, e, q);
    LastValFound(es, e.key);
    LastValFound(es, q);
    if Equiv(e.key, q) { PositionClass(es, e.key, q); }
  }

  lemma {:induction false} PositionStep(es: seq<Entry>, e: Entry, q: Object)
    ensures Position(es + [e], q) ==
            if Position(es, q) < |es| then Position(es, q) else if Equiv(e.key, q) then |es| else |es| + 1
  {
    if es == [] {
      assert (es + [e])[1..] == [];
    } else {
      assert (es + [e])[1..] == es[1..] + [e];
      PositionStep(es[1..], e, q);
    }
  }

  lemma PositionClass(es: seq<Entry>, k: Object, q: Object)
    requires Equiv(k, q)
    ensures Position(es, k) == Position(es, q)
  {
    var i, j := Position(es, k), Position(es, q);
    if i < |es| { EquivLaws(es[i].key, k, q); }
    if j < |es| { EquivLaws(k, q, q); EquivLaws(es[j].key, q, k); }
  }

  /** `complexPath` for an even number of arguments: whether some key repeats. */
  method HasDuplicate(init: seq<Entry>) returns (dup: bool)
    ensures dup <==> !DistinctKeys(init)
  {
    var i := 0;
    dup := false;
    while i < |init| && !dup
      invariant 0 <= i <= |init|
      invariant !dup ==> DistinctKeys(init[..i])
      invariant dup ==> !DistinctKeys(init)
    {
      var j := 0;
      while j < i
        invariant 0 <= j <= i
        invariant forall k :: 0 <= k < j ==> !Equiv(init[k].key, init[i].key)
      {
        EquivLaws(init[i].key, init[j].key, init[j].key);
        if Equiv(init[i].key, init[j].key) {
          dup := true;
          break;
        }
        j := j + 1;
      }
      i := i + 1;
    }
    assert init[..|init|] == init;
  }

  /** The first counting pass: how many keys are first occurrences. */
  method CountFirsts(init: seq<Entry>) returns (n: nat)
    ensures n == |Collapsed(init, |init|)|
  {
    var i := 0;
    n := 0;
    while i < |init|
      invariant 0 <= i <= |init| && n == |Collapsed(init, i)|
    {
      var duplicateKey, j := false, 0;
      while j < i
        invariant 0 <= j <= i
        invariant forall k :: 0 <= k < j ==> !Equiv(init[i].key, init[k].key)
      {
        if Equiv(init[i].key, init[j].key) {
          duplicateKey := true;
          break;
        }
        j := j + 1;
      }
      assert duplicateKey <==> !First(init, i);
      if !duplicateKey { n := n + 1; }
      i := i + 1;
    }
  }

  /** The backward scan for the last value of the key at `i`; it stops at `i` at the latest. */
  method FindLast(init: seq<Entry>, i: nat) returns (j: nat)
    requires i < |init|
    ensures i <= j < |init| && init[j].val == LastOf(init, i)
  {
    j := |init| - 1;
    assert init[..j + 1] == init;
    while j > i && !Equiv(init[i].key, init[j].key)
      invariant i <= j < |init|
      invariant LastVal(init, init[i].key) == LastVal(init[..j + 1], init[i].key)
    {
      assert init[..j + 1][..j] == init[..j];
      j := j - 1;
    }
    EquivLaws(init[i].key, init[i].key, init[i].key);
    assert init[..j + 1][j] == init[j];
  }

  /** Whether the key at `i` is already in the result; since `nodups` has one entry per class seen, this is `First`. */
  method Seen(init: seq<Entry>, i: nat, nodups: array<Entry>, m: nat) returns (duplicateKey: bool)
    requires i < |init| && m <= nodups.Length && nodups[..m] == Collapsed(init, i)
    ensures duplicateKey <==> !First(init, i)
  {
    CollapsedKeys(init, i, init[i].key);
    duplicateKey := false;
    var j := 0;
    while j < m
      invariant 0 <= j <= m
      invariant forall k :: 0 <= k < j ==> !Equiv(init[i].key, nodups[..m][k].key)
    {
      if Equiv(init[i].key, nodups[j].key) {
        assert nodups[..m][j] == nodups[j];
        duplicateKey := true;
        return;
      }
      j := j + 1;
    }
  }

  lemma {:induction false} CollapsedGrows(es: seq<Entry>, i: nat, n: nat)
    requires i <= n <= |es|
    ensures |Collapsed(es, i)| <= |Collapsed(es, n)| <= |Collapsed(es, i)| + n - i
  {
    if i < n { CollapsedGrows(es, i, n - 1); }
  }

  /** When nothing is dropped nothing repeats, and then the result is the input. */
  lemma {:induction false} NothingDropped(es: seq<Entry>, n: nat)
    requires n <= |es| && |Collapsed(es, n)| == n
    ensures DistinctKeys(es[..n])
  {
    if n > 0 {
      NothingDropped(es, n - 1);
      forall j | 0 <= j < n - 1 ensures !Equiv(es[j].key, es[n - 1].key) {
        EquivLaws(es[n - 1].key, es[j].key, es[j].key);
      }
    }
  }

  lemma {:induction false} CollapsedSame(es: seq<Entry>, n: nat)
    requires n <= |es| && DistinctKeys(es)
    ensures Collapsed(es, n) == es[..n]
  {
    if n > 0 {
      CollapsedSame(es, n - 1);
      var i := n - 1;
      EquivLaws(es[i].key, es[i].key, es[i].key);
      forall j | 0 <= j < i ensures !Equiv(es[i].key, es[j].key) { EquivLaws(es[i].key, es[j].key, es[i].key); }
      LastValIsSome(es, es[i].key, i);
    }
  }

  lemma {:induction false} LastValIsSome(es: seq<Entry>, k: Object, i: nat)
    requires i < |es| && Equiv(k, es[i].key)
    requires forall j :: i < j < |es| ==> !Equiv(k, es[j].key)
    ensures LastVal(es, k) == Some(es[i].val)
    decreases |es|
  {
    if i < |es| - 1 { LastValIsSome(es[..|es| - 1], k, i); }
  }

  /** The second pass: it fills exactly the `n` slots that the first pass counted. */
  method DropDuplicates(all: seq<Entry>, n: nat) returns (nodups: array<Entry>)
    requires n == |Collapsed(all, |all|)|
    ensures nodups[..] == Collapsed(all, |all|)
  {
    nodups := new Entry[n](_ => Entry(Nil, Nil));
    var i, m := 0, 0;
    while i < |all|
      invariant 0 <= i <= |all| && m <= n && nodups[..m] == Collapsed(all, i)
    {
      var duplicateKey := Seen(all, i, nodups, m);
      if !duplicateKey {
        var j := FindLast(all, i);
        CollapsedGrows(all, i + 1, |all|);
        nodups[m] := Entry(all[i].key, all[j].val);
        m := m + 1;
      }
      i := i + 1;
    }
    assert m == n;
  }

  /**
   The constructor. `trailing` holds the entries of the map made from an odd last argument by conj onto the
   empty map, in sequence order. The result keeps the first key and last value of every class in order of
   first occurrence.
   */
  method AsIfByAssoc(init: seq<Entry>, trailing: Option<seq<Entry>>) returns (r: Map)
    ensures var all := init + if trailing.Some? then trailing.value else [];
            r == Array(Collapsed(all, |all|))
  {
    var complexPath := true;
    if trailing.None? { complexPath := HasDuplicate(init); }
    var all := init + if trailing.Some? then trailing.value else [];
    if !complexPath {
      assert all == init;
      CollapsedSame(init, |init|);
      assert init[..|init|] == init;
      return Array(init);
    }
    var n := CountFirsts(all);
    assert all[..|all|] == all;
    if n == |all| {
      NothingDropped(all, n);
      CollapsedSame(all, |all|);
      return Array(all);
    }
    var nodups := DropDuplicates(all, n);
    return Array(nodups[..]);
  }

  /** The name of the constructor: for every key the collapsed array answers as the fold of `Assoc` does. */
  lemma AsIfByAssocAgrees(es: seq<Entry>, q: Object)
    ensures Valid(Array(Collapsed(es, |es|)))
    ensures EntryAt(Array(Collapsed(es, |es|)), q) == EntryAt(Folded(es), q)
    ensures Count(Array(Collapsed(es, |es|))) == Count(Folded(es))
  {
    CollapsedDistinct(es, |es|);
    CollapsedFinds(es, q);
    FoldedFinds(es, q);
    SameView(Array(Collapsed(es, |es|)), Folded(es), es);
  }

  lemma SameView(a: Map, b: Map, es: seq<Entry>)
    requires Valid(a) && Valid(b) && a == Array(Collapsed(es, |es|)) && b == Folded(es)
    ensures View(a) == View(b) && Count(a) == Count(b)
  {
    hide View, Count, Valid, Folded, Collapsed, Id;
    forall c | c in View(b) ensures Id(c) == c { ViewFinds(b, c); }
    forall c | Id(c) == c ensures EntryAt(a, c) == if c in View(b) then Some(View(b)[c]) else None {
      CollapsedFinds(es, c);
      FoldedFinds(es, c);
      ViewFinds(b, c);
    }
    ViewByLookup(a, View(b));
    ViewFinds(a, Nil);
    ViewFinds(b, Nil);
  }

  // ---- transients ----

  /**
   A map object on the heap: the part of `*Map` that a transient may overwrite, or a hash map; and whether it
   carries metadata.
   */
  class MapObject {
    var value: Map
    const meta: bool

    constructor (m: Map, meta: bool)
      ensures value == m && this.meta == meta
    {
      value := m;
      this.meta := meta;
    }
  }

  /** `clone`: a keyword-shaped map gets its updates written into the values. */
  function Clone(m: Map): Map
    requires ArrayMaps.Valid(m)
  {
    if m.Shaped? then Shaped(m.keys, Materialized(m.values, m.delta), NoDelta) else m
  }

  /** A keyword-shaped map loses its only key: the code answers with the one empty map object that all maps share. */
  predicate Vanishes(m: Map, k: Object) { m.Shaped? && m.keys == [k] }

  predicate VanishesIn(m: Map, meta: bool, op: HashMaps.Op) { op.Delete? && Vanishes(m, op.key) && !meta }

  class TransientMap {
    /** The package variable `emptyMap`. */
    const empty: MapObject
    var inner: MapObject
    var persisted: bool

    ghost predicate Ok()
      reads this, inner, empty
    {
      ArrayMaps.Valid(inner.value) && ArrayMaps.Valid(empty.value) && !empty.meta
    }

    /** `AsTransient`: the transient owns a clone. */
    constructor (m: MapObject, empty: MapObject)
      requires ArrayMaps.Valid(m.value) && ArrayMaps.Valid(empty.value) && !empty.meta
      ensures Ok() && fresh(inner) && !persisted && this.empty == empty
      ensures inner.value == Clone(m.value) && inner.meta == m.meta
    {
      CloneAgrees(m.value);
      inner := new MapObject(Clone(m.value), m.meta);
      persisted := false;
      this.empty := empty;
    }

    /** `Assoc`; `usable` is false where the code panics. An array map is edited in place, whoever else has it. */
    method Assoc(k: Object, v: Object) returns (usable: bool)
      requires Ok()
      modifies this, inner
      ensures Ok() && persisted == old(persisted) && inner.meta == old(inner.meta)
      ensures usable == !old(persisted)
      ensures inner.value == if usable then ArrayMaps.Assoc(old(inner.value), k, v) else old(inner.value)
      ensures if !usable || (old(inner.value).Array? && inner.value.Array?) then inner == old(inner)
              else fresh(inner) && old(inner).value == old(inner.value)
    {
      if persisted { return false; }
      usable := true;
      AssocRefines(inner.value, k, v);
      if inner.value.Array? {
        var i := 0;
        while i < |inner.value.entries|
          invariant 0 <= i <= |inner.value.entries| && inner == old(inner) && inner.value == old(inner.value)
                    && !persisted
          invariant forall j :: 0 <= j < i ==> !Equiv(inner.value.entries[j].key, k)
        {
          var e := inner.value.entries[i];
          if Equiv(e.key, k) {
            inner.value := Array(inner.value.entries[i := Entry(e.key, v)]);
            if e.val == v { assert inner.value.entries == old(inner.value.entries); }
            return;
          }
          i := i + 1;
        }
        if |inner.value.entries| < Threshold(k) {
          inner.value := Array(inner.value.entries + [Entry(k, v)]);
          return;
        }
      }
      inner := new MapObject(ArrayMaps.Assoc(inner.value, k, v), inner.meta);
    }

    /** `Without`; a map without metadata that vanishes leaves the transient on the shared empty map. */
    method Without(k: Object) returns (usable: bool)
      requires Ok()
      modifies this, inner
      ensures Ok() && persisted == old(persisted) && inner.meta == old(inner.meta)
      ensures usable == !old(persisted)
      ensures if usable && Vanishes(old(inner.value), k) && !old(inner.meta) then inner == empty
              else inner.value == if usable then ArrayMaps.Without(old(inner.value), k) else old(inner.value)
      ensures if !usable || old(inner.value).Array? then inner == old(inner)
              else (inner == empty || fresh(inner)) && old(inner).value == old(inner.value)
      ensures usable && !old(inner.value).Array? ==>
                fresh(inner) || (Vanishes(old(inner.value), k) && !old(inner.meta))
    {
      if persisted { return false; }
      usable := true;
      WithoutRefines(inner.value, k);
      if inner.value.Array? {
        var i := 0;
        while i < |inner.value.entries|
          invariant 0 <= i <= |inner.value.entries| && inner == old(inner) && inner.value == old(inner.value)
                    && !persisted
          invariant forall j :: 0 <= j < i ==> !Equiv(inner.value.entries[j].key, k)
        {
          if Equiv(inner.value.entries[i].key, k) {
            inner.value := Array(inner.value.entries[..i] + inner.value.entries[i + 1..]);
            return;
          }
          i := i + 1;
        }
        return;
      }
      if Vanishes(inner.value, k) && !inner.meta {
        inner := empty;
      } else {
        inner := new MapObject(ArrayMaps.Without(inner.value, k), inner.meta);
      }
    }

    method Apply(op: HashMaps.Op)
      requires Ok() && !persisted
      modifies this, inner
      ensures Ok() && !persisted && inner.meta == old(inner.meta)
      ensures if VanishesIn(old(inner.value), inner.meta, op) then inner == empty
              else inner.value == ArrayMaps.Step(old(inner.value), op)
      ensures if old(inner.value).Array? && inner.value.Array? then inner == old(inner)
              else old(inner).value == old(inner.value)
                   && (VanishesIn(old(inner.value), inner.meta, op) || fresh(inner))
    {
      hide ArrayMaps.Valid, ArrayMaps.Assoc;
      var usable;
      match op {
        case Put(k, v) => usable := this.Assoc(k, v);
        case Delete(k) => usable := this.Without(k);
      }
    }

    /** `Persistent` hands out the object itself and refuses every later use. */
    method Persistent() returns (r: Option<MapObject>)
      modifies this`persisted
      ensures r == if old(persisted) then None else Some(inner)
      ensures persisted
    {
      if persisted { return None; }
      persisted := true;
      return Some(inner);
    }
  }

  lemma CloneAgrees(m: Map)
    requires ArrayMaps.Valid(m)
    ensures ArrayMaps.Valid(Clone(m)) && View(Clone(m)) == View(m)
  {
    if m.Shaped? {
      forall i | 0 <= i < |m.keys|
        ensures ValueAt(Materialized(m.values, m.delta), NoDelta, i) == ValueAt(m.values, m.delta, i)
      {
        NewestFirst(m.values, m.delta, i);
      }
      assert Interleaved(m.keys, Materialized(m.values, m.delta), NoDelta) == Interleaved(m.keys, m.values, m.delta);
    }
  }

  /** Whether a transient has ended up on the shared empty map, and what that object holds then. */
  datatype Sharing = Sharing(aliased: bool, empty: Map)

  function After(m: Map, meta: bool, ops: seq<HashMaps.Op>): (s: Sharing)
    requires ArrayMaps.Valid(m)
    ensures s.aliased ==> s.empty == ArrayMaps.Run(m, ops) && s.empty.Array?
    ensures ArrayMaps.Run(m, ops).Shaped? ==> s.empty == Array([])
    decreases |ops|
  {
    if ops == [] then Sharing(false, Array([]))
    else
      var init, op := ops[..|ops| - 1], ops[|ops| - 1];
      var s, next := After(m, meta, init), ArrayMaps.Run(m, ops);
      if VanishesIn(ArrayMaps.Run(m, init), meta, op) then Sharing(true, Array([]))
      else if s.aliased && next.Array? then Sharing(true, next)
      else Sharing(false, s.empty)
  }

  lemma AfterNothing(m: Map, meta: bool)
    requires ArrayMaps.Valid(m)
    ensures After(m, meta, []) == Sharing(false, Array([])) && ArrayMaps.Run(m, []) == m
  {}

  lemma AfterStep(m: Map, meta: bool, ops: seq<HashMaps.Op>, op: HashMaps.Op)
    requires ArrayMaps.Valid(m)
    ensures var s, now, next := After(m, meta, ops), ArrayMaps.Run(m, ops), ArrayMaps.Run(m, ops + [op]);
            && next == ArrayMaps.Step(now, op)
            && (VanishesIn(now, meta, op) ==> now.Shaped? && next == Array([]))
            && After(m, meta, ops + [op]) ==
               if VanishesIn(now, meta, op) then Sharing(true, Array([]))
               else if s.aliased && next.Array? then Sharing(true, next)
               else Sharing(false, s.empty)
  {
    hide ArrayMaps.Valid, ArrayMaps.Assoc, ArrayMaps.Without;
    assert (ops + [op])[..|ops|] == ops;
    if VanishesIn(ArrayMaps.Run(m, ops), meta, op) { NothingLeft(ArrayMaps.Run(m, ops), op.key); }
  }

  lemma NothingLeft(m: Map, k: Object)
    requires ArrayMaps.Valid(m) && Vanishes(m, k)
    ensures ArrayMaps.Without(m, k) == Array([])
  {
    var es := Interleaved(m.keys, m.values, m.delta);
    assert IndexOf(m.keys, k) == 0 && es[..0] + es[1..] == [];
  }

  /**
   Any run of transient operations followed by `Persistent` gives the map that the same run of persistent
   operations gives, and the transient is spent. Of the objects that others have, only the shared empty map can change.
   */
  method RunTransient(m: MapObject, ops: seq<HashMaps.Op>, empty: MapObject) returns (t: TransientMap, r: MapObject)
    requires ArrayMaps.Valid(m.value) && empty.value == Array([]) && !empty.meta
    modifies empty
    ensures r.value == ArrayMaps.Run(Clone(old(m.value)), ops)
    ensures var s := After(Clone(old(m.value)), m.meta, ops);
            empty.value == s.empty && (if s.aliased then r == empty else fresh(r))
    ensures t.persisted && t.Ok() && t.inner == r
  {
    hide ArrayMaps.Valid, Clone, After, ArrayMaps.Run, ArrayMaps.Step, Vanishes;
    CloneAgrees(m.value);
    ghost var start := Clone(m.value);
    AfterNothing(start, m.meta);
    t := new TransientMap(m, empty);
    var i := 0;
    assert ops[..0] == [];
    while i < |ops|
      invariant 0 <= i <= |ops|
      invariant fresh(t) && t.Ok() && !t.persisted && t.empty == empty && t.inner.meta == m.meta
      invariant t.inner.value == ArrayMaps.Run(start, ops[..i])
      invariant var s := After(start, m.meta, ops[..i]);
                empty.value == s.empty && if s.aliased then t.inner == empty else fresh(t.inner)
    {
      assert ops[..i + 1][..i] == ops[..i];
      AfterStep(start, m.meta, ops[..i], ops[i]);
      assert ops[..i + 1] == ops[..i] + [ops[i]];
      t.Apply(ops[i]);
      i := i + 1;
    }
    assert ops[..|ops|] == ops;
    var p := t.Persistent();
    r := p.value;
  }

  /** So a transient's run answers as the persistent run from the map it was made of. */
  lemma RunFromClone(m: Map, ops: seq<HashMaps.Op>, q: Object)
    requires ArrayMaps.Valid(m)
    ensures ArrayMaps.Valid(Clone(m)) && EntryAt(ArrayMaps.Run(Clone(m), ops), q) == EntryAt(ArrayMaps.Run(m, ops), q)
    ensures Count(ArrayMaps.Run(Clone(m), ops)) == Count(ArrayMaps.Run(m, ops))
  {
    hide View, EntryAt, Count, ArrayMaps.Valid, Clone, ArrayMaps.Run;
    CloneAgrees(m);
    RunRefines(m, ops, q);
    RunRefines(Clone(m), ops, q);
  }

  // ---- when the shared empty map is edited ----

  /** The operation leaves a map on its shape of the one key `k`. */
  predicate KeepsShape(k: Object, op: HashMaps.Op) { if op.Put? then op.key == k else op.key != k }

  /** The operations before `i` leave the one-key shape as it is, and the one at `i` deletes the key. */
  predicate EmptiesShape(m: Map, meta: bool, ops: seq<HashMaps.Op>, i: nat) {
    && i < |ops| && m.Shaped? && |m.keys| == 1 && !meta && ops[i] == HashMaps.Delete(m.keys[0])
    && forall h :: 0 <= h < i ==> KeepsShape(m.keys[0], ops[h])
  }

  lemma ShapedStep(m: Map, op: HashMaps.Op)
    requires ArrayMaps.Valid(m)
    ensures var r := ArrayMaps.Step(m, op);
            && (r.Shaped? ==> m.Shaped? && r.keys == m.keys)
            && (m.Shaped? && |m.keys| == 1 ==> (r.Shaped? <==> KeepsShape(m.keys[0], op)))
  {
    hide Interleaved, CanBeArray, HashOf, HashMaps.Assoc, HashMaps.Without;
  }

  /** A map with one key stays on its shape exactly as long as operations put that key or delete others. */
  lemma {:induction false} OneKeyShape(m: Map, ops: seq<HashMaps.Op>)
    requires ArrayMaps.Valid(m) && m.Shaped? && |m.keys| == 1
    ensures var r := ArrayMaps.Run(m, ops);
            r.Shaped? ==> r.keys == m.keys
    ensures ArrayMaps.Run(m, ops).Shaped? <==> forall h :: 0 <= h < |ops| ==> KeepsShape(m.keys[0], ops[h])
    decreases |ops|
  {
    hide ArrayMaps.Valid, ArrayMaps.Step, KeepsShape;
    if ops != [] {
      var init := ops[..|ops| - 1];
      OneKeyShape(m, init);
      ShapedStep(ArrayMaps.Run(m, init), ops[|ops| - 1]);
      assert forall h :: 0 <= h < |init| ==> init[h] == ops[h];
    }
  }

  /** Shaped maps keep their keys as long as they stay shaped. */
  lemma {:induction false} ShapeKept(m: Map, ops: seq<HashMaps.Op>)
    requires ArrayMaps.Valid(m)
    ensures ArrayMaps.Run(m, ops).Shaped? ==> m.Shaped? && ArrayMaps.Run(m, ops).keys == m.keys
    decreases |ops|
  {
    hide ArrayMaps.Valid, ArrayMaps.Step;
    if ops != [] {
      ShapeKept(m, ops[..|ops| - 1]);
      ShapedStep(ArrayMaps.Run(m, ops[..|ops| - 1]), ops[|ops| - 1]);
    }
  }

  /** The run vanishes at `i` exactly if the operations up to there are of the shape that can be read off them. */
  lemma VanishesWhen(m: Map, meta: bool, ops: seq<HashMaps.Op>, i: nat)
    requires ArrayMaps.Valid(m) && i < |ops|
    ensures VanishesIn(ArrayMaps.Run(m, ops[..i]), meta, ops[i]) <==> EmptiesShape(m, meta, ops, i)
  {
    hide ArrayMaps.Run, ArrayMaps.Valid;
    ShapeKept(m, ops[..i]);
    if m.Shaped? && |m.keys| == 1 {
      OneKeyShape(m, ops[..i]);
      assert forall h :: 0 <= h < i ==> ops[..i][h] == ops[h];
      assert m.keys == [m.keys[0]];
    }
  }

  lemma EmptiesPrefix(m: Map, meta: bool, ops: seq<HashMaps.Op>, n: nat, i: nat)
    requires i < n <= |ops|
    ensures EmptiesShape(m, meta, ops[..n], i) <==> EmptiesShape(m, meta, ops, i)
  {
    assert forall h :: 0 <= h < n ==> ops[..n][h] == ops[h];
  }

  lemma {:induction false} NeverShared(m: Map, meta: bool, ops: seq<HashMaps.Op>)
    requires ArrayMaps.Valid(m) && forall i :: 0 <= i < |ops| ==> !EmptiesShape(m, meta, ops, i)
    ensures After(m, meta, ops) == Sharing(false, Array([]))
    decreases |ops|
  {
    hide ArrayMaps.Run, ArrayMaps.Valid, EmptiesShape, VanishesIn;
    if ops != [] {
      var n := |ops| - 1;
      forall i | 0 <= i < n ensures !EmptiesShape(m, meta, ops[..n], i) { EmptiesPrefix(m, meta, ops, n, i); }
      NeverShared(m, meta, ops[..n]);
      VanishesWhen(m, meta, ops, n);
    }
  }

  lemma {:induction false} StaysEmpty(m: Map, meta: bool, ops: seq<HashMaps.Op>, i: nat)
    requires ArrayMaps.Valid(m) && EmptiesShape(m, meta, ops, i)
    requires forall j :: i < j < |ops| ==> ops[j].Delete?
    ensures After(m, meta, ops) == Sharing(true, Array([])) && ArrayMaps.Run(m, ops) == Array([])
    decreases |ops|
  {
    hide ArrayMaps.Valid, EmptiesShape, ArrayMaps.Run, After;
    var n := |ops| - 1;
    assert i < |ops| by { EmptiesIsIndex(m, meta, ops, i); }
    assert ops == ops[..n] + [ops[n]];
    AfterStep(m, meta, ops[..n], ops[n]);
    if i == n {
      VanishesWhen(m, meta, ops, n);
    } else {
      EmptiesPrefix(m, meta, ops, n, i);
      StaysEmpty(m, meta, ops[..n], i);
      assert ArrayMaps.Without(Array([]), ops[n].key) == Array([]);
    }
  }

  lemma EmptiesIsIndex(m: Map, meta: bool, ops: seq<HashMaps.Op>, i: nat)
    requires EmptiesShape(m, meta, ops, i)
    ensures i < |ops|
  {}

  /**
   The shared empty map stays empty throughout the run exactly if no operation puts a key after the run has
   deleted the only key of a map that is still on its keyword shape.
   */
  lemma EmptyMapKept(m: Map, meta: bool, ops: seq<HashMaps.Op>)
    requires ArrayMaps.Valid(m)
    ensures (forall n :: 0 <= n <= |ops| ==> After(m, meta, ops[..n]).empty == Array([]))
            <==> !exists i, j :: 0 <= i < j < |ops| && EmptiesShape(m, meta, ops, i) && ops[j].Put?
  {
    hide ArrayMaps.Valid, EmptiesShape, ArrayMaps.Run, After;
    if i, j :| 0 <= i < j < |ops| && EmptiesShape(m, meta, ops, i) && ops[j].Put? {
      PutAfterEmptying(m, meta, ops, i, j);
    } else {
      forall n | 0 <= n <= |ops|
        ensures After(m, meta, ops[..n]).empty == Array([])
      {
        KeptSoFar(m, meta, ops, n);
      }
    }
  }

  lemma PutAfterEmptying(m: Map, meta: bool, ops: seq<HashMaps.Op>, i: nat, j: nat)
    requires ArrayMaps.Valid(m) && i < j < |ops| && EmptiesShape(m, meta, ops, i) && ops[j].Put?
    ensures exists n :: 0 <= n <= |ops| && After(m, meta, ops[..n]).empty != Array([])
    decreases j
  {
    hide ArrayMaps.Valid, EmptiesShape, ArrayMaps.Run, After;
    if k :| i < k < j && ops[k].Put? {
      PutAfterEmptying(m, meta, ops, i, k);
    } else {
      EmptiesPrefix(m, meta, ops, j, i);
      StaysEmpty(m, meta, ops[..j], i);
      assert ops[..j + 1] == ops[..j] + [ops[j]];
      AfterStep(m, meta, ops[..j], ops[j]);
      assert ArrayMaps.Assoc(Array([]), ops[j].key, ops[j].val) == Array([Entry(ops[j].key, ops[j].val)]);
      assert After(m, meta, ops[..j + 1]).empty != Array([]);
    }
  }

  lemma KeptSoFar(m: Map, meta: bool, ops: seq<HashMaps.Op>, n: nat)
    requires ArrayMaps.Valid(m) && n <= |ops|
    requires !exists i, j :: 0 <= i < j < |ops| && EmptiesShape(m, meta, ops, i) && ops[j].Put?
    ensures After(m, meta, ops[..n]).empty == Array([])
  {
    hide ArrayMaps.Valid, EmptiesShape, ArrayMaps.Run, After;
    if i :| 0 <= i < n && EmptiesShape(m, meta, ops, i) {
      EmptiesPrefix(m, meta, ops, n, i);
      assert forall j :: i < j < n ==> ops[..n][j] == ops[j];
      StaysEmpty(m, meta, ops[..n], i);
    } else {
      forall i | 0 <= i < n ensures !EmptiesShape(m, meta, ops[..n], i) { EmptiesPrefix(m, meta, ops, n, i); }
      NeverShared(m, meta, ops[..n]);
    }
  }

  /** `(-> (transient {:k a}) (dissoc! :k) (assoc! :k b))`: the empty map of the whole program now has an entry. */
  lemma SharedEmptyMapEdited(k: Object, a: Object, b: Object)
    requires k.Keyword?
    ensures var m, ops := Shaped([k], [a], NoDelta), [HashMaps.Delete(k), HashMaps.Put(k, b)];
            ArrayMaps.Valid(m) && After(m, false, ops) == Sharing(true, Array([Entry(k, b)]))
  {
    hide ArrayMaps.Run, After;
    var m, del, put := Shaped([k], [a], NoDelta), HashMaps.Delete(k), HashMaps.Put(k, b);
    assert EmptiesShape(m, false, [del], 0);
    StaysEmpty(m, false, [del], 0);
    assert [del] + [put] == [del, put];
    AfterStep(m, false, [del], put);
    assert ArrayMaps.Assoc(Array([]), k, b) == Array([Entry(k, b)]);
  }
}
