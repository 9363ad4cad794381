/**
 Namespaces (`pkg/lang/namespace.go`): mapping tables that are shared with the namespaces that refer to
 them and copied before they are written, and the memoised view of everything visible.
 */
module Namespaces {
  import opened Objects

  /** A Go map: a cell on the heap, which several namespaces may hold. */
  class Table {
    var entries: map<string, Mapping>

    constructor (entries: map<string, Mapping>)
      ensures this.entries == entries
    {
      this.entries := entries;
    }
  }

  class NameSet {
    var names: set<string>

    constructor (names: set<string>)
      ensures this.names == names
    {
      this.names := names;
    }
  }

  class Var {
    const owner: Namespace
    const name: string

    constructor (owner: Namespace, name: string)
      ensures this.owner == owner && this.name == name
    {
      this.owner := owner;
      this.name := name;
    }
  }

  /** What a name maps to: a Var, or a host class or function. */
  datatype Value = VarValue(v: Var) | HostValue(id: int, comparable: bool)

  datatype Mapping = Mapping(sym: string, val: Value)

  datatype Snapshot = Snapshot(source: Namespace, mappings: Table, excluded: NameSet)

  predicate IsInterned(ns: Namespace, key: string, val: Value) {
    val.VarValue? && val.v.owner == ns && val.v.name == key
  }

  // ---- what is visible, as a function of the contents of the tables ----

  datatype Layer = Layer(source: Namespace, entries: map<string, Mapping>, excluded: set<string>)

  datatype View = View(entries: map<string, Mapping>, layers: seq<Layer>)

  predicate Shows(l: Layer, key: string) {
    key !in l.excluded && key in l.entries && IsInterned(l.source, key, l.entries[key].val)
  }

  /** The most recent layer that shows the name. */
  function FromLayers(layers: seq<Layer>, key: string): Option<Mapping>
    decreases |layers|
  {
    if layers == [] then None
    else
      var last := layers[|layers| - 1];
      if Shows(last, key) then Some(last.entries[key]) else FromLayers(layers[..|layers| - 1], key)
  }

  function Visible(v: View, key: string): Option<Mapping> {
    if key in v.entries then Some(v.entries[key]) else FromLayers(v.layers, key)
  }

  predicate Keyed(entries: map<string, Mapping>) { forall k :: k in entries ==> entries[k].sym == k }

  /** A view collected into one table. */
  ghost predicate Collects(table: map<string, Mapping>, v: View) {
    forall k :: (k in table <==> Visible(v, k).Some?) && (k in table ==> Some(table[k]) == Visible(v, k))
  }

  ghost predicate MemoOk(memo: map<string, Value>, v: View) {
    forall k :: (k in memo <==> Visible(v, k).Some?) && (k in memo ==> memo[k] == Visible(v, k).value.val)
  }

  /** Tables are keyed by the names of their mappings, and a memoised view is the view. */
  ghost predicate Consistent(v: View, memo: Option<map<string, Value>>) {
    && Keyed(v.entries)
    && (forall i :: 0 <= i < |v.layers| ==> Keyed(v.layers[i].entries))
    && (memo.Some? ==> MemoOk(memo.value, v))
  }

  lemma ConsistentAfterSet(v: View, memo: Option<map<string, Value>>, key: string, val: Value)
    requires Consistent(v, memo)
    ensures Consistent(View(v.entries[key := Mapping(key, val)], v.layers), None)
  {}

  ghost function LayersOf(ss: seq<Snapshot>): (layers: seq<Layer>)
    reads set s | s in ss :: s.mappings, set s | s in ss :: s.excluded
    ensures |layers| == |ss|
    ensures forall i :: 0 <= i < |ss| ==> layers[i] == Layer(ss[i].source, ss[i].mappings.entries, ss[i].excluded.names)
  {
    if ss == [] then []
    else
      var s := ss[|ss| - 1];
      LayersOf(ss[..|ss| - 1]) + [Layer(s.source, s.mappings.entries, s.excluded.names)]
  }

  predicate Comparable(v: Value) { v.VarValue? || v.comparable }

  /** An own Var, the value that is already there, or two values that Go cannot compare. */
  predicate Keeps(ns: Namespace, key: string, current: Value, v: Value) {
    || IsInterned(ns, key, current)
    || (Comparable(current) && Comparable(v) && current == v)
    || (!Comparable(current) && !Comparable(v))
  }

  // ---- facts about views ----

  lemma VisibleAfterSet(v: View, key: string, m: Mapping, k: string)
    ensures Visible(View(v.entries[key := m], v.layers), k) == if k == key then Some(m) else Visible(v, k)
  {}

  lemma {:induction false} LayersSplit(layers: seq<Layer>, l: Layer, k: string)
    ensures FromLayers(layers + [l], k) == if Shows(l, k) then Some(l.entries[k]) else FromLayers(layers, k)
  {
    assert (layers + [l])[..|layers|] == layers;
  }

  /** A layer that does not show the name makes no difference, wherever it is. */
  lemma {:induction false} HiddenLayers(before: seq<Layer>, after: seq<Layer>, k: string)
    requires |before| <= |after|
    requires forall i :: 0 <= i < |before| ==> after[i] == before[i] || !Shows(after[i], k)
    requires forall i :: |before| <= i < |after| ==> !Shows(after[i], k)
    requires FromLayers(before, k) == None
    ensures FromLayers(after, k) == None
    decreases |after|
  {
    if |after| > |before| {
      HiddenLayers(before, after[..|after| - 1], k);
    } else if |before| > 0 {
      HiddenLayers(before[..|before| - 1], after[..|after| - 1], k);
    }
  }

  /** Layers that agree about the name give the same answer. */
  lemma {:induction false} SameLayers(before: seq<Layer>, after: seq<Layer>, k: string)
    requires |before| == |after|
    requires forall i :: 0 <= i < |before| ==>
             (Shows(after[i], k) <==> Shows(before[i], k)) && after[i].entries == before[i].entries
    ensures FromLayers(after, k) == FromLayers(before, k)
    decreases |after|
  {
    if |after| > 0 { SameLayers(before[..|before| - 1], after[..|after| - 1], k); }
  }

  /** The layers after `key` has been excluded wherever it occurs. */
  predicate Unmapped(before: seq<Layer>, after: seq<Layer>, key: string) {
    && |after| == |before|
    && forall i :: 0 <= i < |before| ==> UnmappedLayer(before[i], after[i], key)
  }

  predicate UnmappedLayer(before: Layer, after: Layer, key: string) {
    && after.source == before.source && after.entries == before.entries
    && after.excluded == before.excluded + Exclusion(key, before.entries)
  }

  function Exclusion(key: string, entries: map<string, Mapping>): set<string> { if key in entries then {key} else {} }

  lemma UnmappedView(before: View, after: View, key: string, k: string)
    requires after.entries == before.entries - {key} && Unmapped(before.layers, after.layers, key)
    ensures Visible(after, k) == if k == key then None else Visible(before, k)
  {
    if k == key { NoneShow(after.layers, k); } else { SameLayers(before.layers, after.layers, k); }
  }

  lemma {:induction false} NoneShow(layers: seq<Layer>, k: string)
    requires forall i :: 0 <= i < |layers| ==> !Shows(layers[i], k)
    ensures FromLayers(layers, k) == None
    decreases |layers|
  {
    if layers != [] { NoneShow(layers[..|layers| - 1], k); }
  }

  lemma ConsistentAfterUnmap(v: View, memo: Option<map<string, Value>>, key: string)
    requires Consistent(v, memo)
    ensures Consistent(View(v.entries - {key}, v.layers), None)
  {}

  lemma ConsistentAfterExclude(before: View, after: View, memo: Option<map<string, Value>>, key: string)
    requires Consistent(View(before.entries - {key}, before.layers), None) && memo == None
    requires after.entries == before.entries - {key} && Unmapped(before.layers, after.layers, key)
    ensures Consistent(after, memo)
  {}

  lemma CollectLayer(before: map<string, Mapping>, after: map<string, Mapping>, layers: seq<Layer>, l: Layer)
    requires Collects(before, View(map[], layers))
    requires forall k :: k in after <==> k in before || Shows(l, k)
    requires forall k :: k in after ==> after[k] == if Shows(l, k) then l.entries[k] else before[k]
    ensures Collects(after, View(map[], layers + [l]))
  {
    forall k ensures FromLayers(layers + [l], k) == if Shows(l, k) then Some(l.entries[k]) else FromLayers(layers, k) {
      LayersSplit(layers, l, k);
    }
  }

  lemma {:induction false} LayersKeyed(layers: seq<Layer>, k: string)
    requires forall i :: 0 <= i < |layers| ==> Keyed(layers[i].entries)
    ensures FromLayers(layers, k).Some? ==> FromLayers(layers, k).value.sym == k
    decreases |layers|
  {
    if layers != [] { LayersKeyed(layers[..|layers| - 1], k); }
  }

  lemma CollectKeyed(table: map<string, Mapping>, v: View)
    requires Collects(table, v)
    ensures Keyed(v.entries) && (forall i :: 0 <= i < |v.layers| ==> Keyed(v.layers[i].entries)) ==> Keyed(table)
  {
    if Keyed(v.entries) && (forall i :: 0 <= i < |v.layers| ==> Keyed(v.layers[i].entries)) {
      forall k | k in table ensures table[k].sym == k { LayersKeyed(v.layers, k); }
    }
  }

  lemma OwnTableCollects(v: View)
    requires v.layers == []
    ensures Collects(v.entries, v)
  {}

  /** A snapshot of all that `src` shows. */
  ghost predicate Captures(l: Layer, src: Namespace, v: View, excluded: seq<string>) {
    l.source == src && Collects(l.entries, v) && l.excluded == set name | name in excluded
  }

  /** The new layer replaces the layer of its source, or comes last. */
  ghost predicate Installed(before: seq<Layer>, after: seq<Layer>, l: Layer) {
    if exists i :: 0 <= i < |before| && before[i].source == l.source
    then exists i :: Replaced(before, after, l, i)
    else after == before + [l]
  }

  predicate Replaced(before: seq<Layer>, after: seq<Layer>, l: Layer, i: int) {
    0 <= i < |before| && before[i].source == l.source && after == before[i := l]
  }

  class Namespace {
    const name: string
    var mappings: Table
    var mappingsShared: bool
    var snapshots: seq<Snapshot>
    var memo: Option<map<string, Value>>

    /** `seed` holds the host classes that every namespace imports. */
    constructor (name: string, seed: map<string, Mapping>)
      ensures this.name == name && fresh(mappings) && mappings.entries == seed
      ensures !mappingsShared && snapshots == [] && memo == None
    {
      this.name := name;
      mappings := new Table(seed);
      mappingsShared := false;
      snapshots := [];
      memo := None;
    }

    ghost function Cells(): set<object>
      reads this
    {
      {mappings} + (set i | 0 <= i < |snapshots| :: snapshots[i].mappings as object)
      + (set i | 0 <= i < |snapshots| :: snapshots[i].excluded as object)
    }

    /** The cells that its operations write. */
    ghost function Held(): set<object>
      reads this
    {
      {mappings} + set i | 0 <= i < |snapshots| :: snapshots[i].excluded as object
    }

    ghost function Now(): View
      reads this, Cells()
    {
      View(mappings.entries, LayersOf(snapshots))
    }

    /** `ensureMappingsMutableLocked` */
    method EnsureMappingsMutable(ghost all: set<Namespace>)
      requires this in all && Apart(all)
      modifies this
      ensures Apart(all) && !mappingsShared
      ensures mappings == old(mappings) || fresh(mappings)
      ensures snapshots == old(snapshots) && memo == old(memo) && Now() == old(Now())
    {
      hide Consistent, LayersOf;
      if mappingsShared {
        mappings := new Table(mappings.entries);
        mappingsShared := false;
      }
    }

    lemma NotHeldElsewhere(all: set<Namespace>)
      requires this in all && Separate(all) && !mappingsShared
      ensures forall b :: b in all && b != this ==> mappings !in b.Cells()
      ensures forall i :: 0 <= i < |snapshots| ==> snapshots[i].mappings != mappings
    {}

    /** Writing a table that is not shared changes no other view and no snapshot. */
    method WriteEntries(entries: map<string, Mapping>, ghost all: set<Namespace>)
      requires this in all && Separate(all) && !mappingsShared
      modifies mappings
      ensures Now() == View(entries, old(Now()).layers)
      ensures forall b :: b in all && b != this ==> b.Now() == old(b.Now())
    {
      NotHeldElsewhere(all);
      mappings.entries := entries;
    }

    /** Writes one entry, into a copy if the table has been shared. */
    method SetMapping(key: string, val: Value, ghost all: set<Namespace>)
      requires this in all && Apart(all)
      modifies this, mappings
      ensures Apart(all) && fresh(Held() - old(Held()))
      ensures snapshots == old(snapshots)
      ensures Now() == View(old(mappings.entries)[key := Mapping(key, val)], old(Now()).layers)
      ensures forall b :: b in all && b != this ==> b.Now() == old(b.Now())
    {
      hide Consistent, LayersOf, Separate;
      ConsistentAfterSet(Now(), memo, key, val);
      EnsureMappingsMutable(all);
      WriteEntries(mappings.entries[key := Mapping(key, val)], all);
      memo := None;
    }

    /** `Unmap`: the own mapping goes, and every snapshot that has the name excludes it. */
    method Unmap(key: string, ghost all: set<Namespace>)
      requires this in all && Apart(all)
      modifies this, mappings, set i | 0 <= i < |snapshots| :: snapshots[i].excluded
      ensures Apart(all) && fresh(Held() - old(Held()))
      ensures Visible(Now(), key) == None
      ensures forall k :: k != key ==> Visible(Now(), k) == old(Visible(Now(), k))
      ensures forall b :: b in all && b != this ==> b.Now() == old(b.Now())
    {
      hide Consistent, LayersOf, Separate;
      ghost var before := Now();
      RemoveOwn(key, all);
      ExcludeEverywhere(key, all);
      forall k
        ensures Visible(Now(), k) == if k == key then None else Visible(before, k)
      {
        UnmappedView(before, Now(), key, k);
      }
      ConsistentAfterExclude(before, Now(), memo, key);
    }

    method RemoveOwn(key: string, ghost all: set<Namespace>)
      requires this in all && Apart(all)
      modifies this, mappings
      ensures Apart(all) && memo == None && snapshots == old(snapshots) && fresh(Held() - old(Held()))
      ensures Now() == View(old(mappings.entries) - {key}, old(Now()).layers)
      ensures forall b :: b in all && b != this ==> b.Now() == old(b.Now())
    {
      hide Consistent, LayersOf, Separate;
      ConsistentAfterUnmap(Now(), memo, key);
      if key in mappings.entries {
        EnsureMappingsMutable(all);
        WriteEntries(mappings.entries - {key}, all);
      } else {
        assert mappings.entries - {key} == mappings.entries;
      }
      memo := None;
    }

    method ExcludeEverywhere(key: string, ghost all: set<Namespace>)
      requires this in all && Separate(all)
      modifies set i | 0 <= i < |snapshots| :: snapshots[i].excluded
      ensures Now().entries == old(Now()).entries && Unmapped(old(Now()).layers, Now().layers, key)
      ensures forall b :: b in all && b != this ==> b.Now() == old(b.Now())
    {
      for i := 0 to |snapshots|
        invariant snapshots == old(snapshots)
        invariant forall j :: 0 <= j < |snapshots| ==>
                  snapshots[j].mappings.entries == old(snapshots[j].mappings.entries)
        invariant forall j :: i <= j < |snapshots| ==> snapshots[j].excluded.names == old(snapshots[j].excluded.names)
        invariant forall j :: 0 <= j < i ==>
          snapshots[j].excluded.names == old(snapshots[j].excluded.names)
            + Exclusion(key, snapshots[j].mappings.entries)
        invariant forall b :: b in all && b != this ==> b.Now() == old(b.Now())
      {
        var s := snapshots[i];
        if key in s.mappings.entries {
          s.excluded.names := s.excluded.names + {key};
        }
      }
    }

    /** `visibleMappingLocked`: the own table, then the snapshots, newest first. */
    method VisibleMapping(key: string) returns (m: Option<Mapping>)
      ensures m == Visible(Now(), key)
    {
      if key in mappings.entries {
        return Some(mappings.entries[key]);
      }
      ghost var layers := Now().layers;
      assert layers[..|snapshots|] == layers;
      var i := |snapshots|;
      while i > 0
        invariant 0 <= i <= |snapshots|
        invariant FromLayers(layers, key) == FromLayers(layers[..i], key)
      {
        i := i - 1;
        var s := snapshots[i];
        assert layers[..i + 1] == layers[..i] + [layers[i]];
        LayersSplit(layers[..i], layers[i], key);
        if key !in s.excluded.names && key in s.mappings.entries
            && IsInterned(s.source, key, s.mappings.entries[key].val) {
          return Some(s.mappings.entries[key]);
        }
      }
      m := None;
    }

    /** A Var of this namespace is never replaced; anything else is, with a warning, by a new Var. */
    method Intern(key: string, ghost all: set<Namespace>) returns (v: Var)
      requires this in all && Apart(all)
      modifies this, mappings
      ensures Apart(all) && fresh(Held() - old(Held()))
      ensures v.owner == this && v.name == key
      ensures Visible(Now(), key).Some? && Visible(Now(), key).value.val == VarValue(v)
      ensures forall k :: k != key ==> Visible(Now(), k) == old(Visible(Now(), k))
      ensures var prior := old(Visible(Now(), key));
              if prior.Some? && IsInterned(this, key, prior.value.val) then Now() == old(Now()) else fresh(v)
      ensures forall b :: b in all && b != this ==> b.Now() == old(b.Now())
      ensures Now().layers == old(Now()).layers
    {
      hide Consistent, LayersOf, Separate;
      var m := VisibleMapping(key);
      if m.Some? && IsInterned(this, key, m.value.val) {
        return m.value.val.v;
      }
      v := new Var(this, key);
      ghost var before := Now();
      SetMapping(key, VarValue(v), all);
      forall k ensures Visible(Now(), k) == if k == key then Some(Mapping(key, VarValue(v))) else Visible(before, k) {
        VisibleAfterSet(before, key, Mapping(key, VarValue(v)), k);
      }
    }

    /** Under `Refer` and `Import`: what `Keeps` keeps stays, anything else is replaced. */
    method Reference(key: string, v: Value, ghost all: set<Namespace>) returns (r: Value)
      requires this in all && Apart(all)
      modifies this, mappings
      ensures Apart(all) && fresh(Held() - old(Held()))
      ensures Visible(Now(), key).Some? && Visible(Now(), key).value.val == r
      ensures var prior := old(Visible(Now(), key));
              if prior.Some? && Keeps(this, key, prior.value.val, v) then r == prior.value.val && Now()
                  == old(Now()) else r == v
      ensures forall k :: k != key ==> Visible(Now(), k) == old(Visible(Now(), k))
      ensures forall b :: b in all && b != this ==> b.Now() == old(b.Now())
      ensures Now().layers == old(Now()).layers
    {
      hide Consistent, LayersOf, Separate;
      var m := VisibleMapping(key);
      if m.Some? {
        var o := m.value.val;
        if IsInterned(this, key, o) {
          return o;
        }
        if Comparable(o) && Comparable(v) {
          if o == v {
            return o;
          }
        } else if Comparable(o) == Comparable(v) {
          return o;
        }
      }
      ghost var before := Now();
      SetMapping(key, v, all);
      forall k ensures Visible(Now(), k) == if k == key then Some(Mapping(key, v)) else Visible(before, k) {
        VisibleAfterSet(before, key, Mapping(key, v), k);
      }
      r := v;
    }

    /** Everything visible, collected layer by layer and then from the own table. */
    method CollectVisible() returns (visible: map<string, Mapping>)
      ensures Collects(visible, Now())
      ensures Keyed(mappings.entries) && (forall i :: 0 <= i < |snapshots| ==> Keyed(snapshots[i].mappings.entries)) ==>
              Keyed(visible)
    {
      hide Consistent;
      visible := map[];
      ghost var layers := Now().layers;
      for i := 0 to |snapshots|
        invariant Collects(visible, View(map[], layers[..i]))
      {
        ghost var before := visible;
        visible := AddSnapshot(visible, snapshots[i]);
        assert layers[..i + 1] == layers[..i] + [layers[i]];
        CollectLayer(before, visible, layers[..i], layers[i]);
      }
      assert layers[..|snapshots|] == layers;
      visible := AddOwn(visible);
      CollectKeyed(visible, Now());
    }

    method AddSnapshot(before: map<string, Mapping>, s: Snapshot) returns (visible: map<string, Mapping>)
      ensures var l := Layer(s.source, s.mappings.entries, s.excluded.names);
              && (forall k :: k in visible <==> k in before || Shows(l, k))
              && (forall k :: k in visible ==> visible[k] == if Shows(l, k) then l.entries[k] else before[k])
    {
      visible := before;
      ghost var l := Layer(s.source, s.mappings.entries, s.excluded.names);
      var keys := s.mappings.entries.Keys;
      while keys != {}
        invariant keys <= s.mappings.entries.Keys
        invariant forall k :: k in visible <==> k in before || (k !in keys && Shows(l, k))
        invariant forall k :: k in visible ==> visible[k] == if k !in keys && Shows(l, k) then l.entries[k]
                  else before[k]
        decreases |keys|
      {
        var key :| key in keys;
        keys := keys - {key};
        if key !in s.excluded.names && IsInterned(s.source, key, s.mappings.entries[key].val) {
          visible := visible[key := s.mappings.entries[key]];
        }
      }
    }

    method AddOwn(before: map<string, Mapping>) returns (visible: map<string, Mapping>)
      ensures forall k :: k in visible <==> k in before || k in mappings.entries
      ensures forall k :: k in visible ==> visible[k] == if k in mappings.entries then mappings.entries[k]
              else before[k]
    {
      visible := before;
      var keys := mappings.entries.Keys;
      while keys != {}
        invariant keys <= mappings.entries.Keys
        invariant forall k :: k in visible <==> k in before || (k !in keys && k in mappings.entries)
        invariant forall k :: k in visible ==>
          visible[k] == if k !in keys && k in mappings.entries then mappings.entries[k] else before[k]
        decreases |keys|
      {
        var key :| key in keys;
        keys := keys - {key};
        visible := visible[key := mappings.entries[key]];
      }
    }

    /** The memoised view, computed on demand. */
    method Mappings(ghost all: set<Namespace>) returns (m: map<string, Value>)
      requires this in all && Apart(all)
      modifies this
      ensures Apart(all) && MemoOk(m, Now()) && memo == Some(m)
      ensures Now() == old(Now()) && Held() == old(Held())
      ensures forall b :: b in all && b != this ==> b.Now() == old(b.Now())
    {
      hide LayersOf, Separate, Visible;
      if memo.Some? {
        return memo.value;
      }
      var visible := CollectVisible();
      m := map k | k in visible :: visible[k].val;
      memo := Some(m);
    }

    /** The own table itself when there are no snapshots, marked as shared; otherwise a new table of everything
        visible. */
    method ShareMappings(ghost all: set<Namespace>) returns (t: Table)
      requires this in all && Apart(all)
      modifies this`mappingsShared
      ensures Apart(all) && Keyed(t.entries) && Collects(t.entries, Now())
      ensures (t == mappings && mappingsShared) || fresh(t)
      ensures Now() == old(Now())
    {
      hide LayersOf, Visible;
      if |snapshots| == 0 {
        mappingsShared := true;
        t := mappings;
        OwnTableCollects(Now());
      } else {
        var visible := CollectVisible();
        t := new Table(visible);
      }
    }

    /** Refers to everything that `src` shows now, in place of an earlier reference to `src` if there is one. */
    method ReferAllSnapshot(src: Namespace, excluded: seq<string>, ghost all: set<Namespace>)
      requires this in all && src in all && Apart(all)
      modifies this, src`mappingsShared
      ensures Apart(all) && fresh(Held() - old(Held()))
      ensures Now().entries == old(Now()).entries
      ensures exists l :: Captures(l, src, old(src.Now()), excluded) && Installed(old(Now()).layers, Now().layers, l)
      ensures forall b :: b in all && b != this ==> b.Now() == old(b.Now())
    {
      hide Consistent, LayersOf, Separate, Collects, Installed, Keyed;
      ghost var view := src.Now();
      var t := src.ShareMappings(all);
      var names := new NameSet(set name | name in excluded);
      SharedTable(t, src, all);
      InstallAndForget(Snapshot(src, t, names), all);
      assert Captures(Layer(src, t.entries, names.names), src, view, excluded);
    }

    lemma SharedTable(t: Table, src: Namespace, all: set<Namespace>)
      requires src in all && Separate(all)
      requires (t == src.mappings && src.mappingsShared) || forall a :: a in all ==> a.mappings != t
      ensures forall a :: a in all && a.mappings == t ==> a.mappingsShared
    {}

    method InstallAndForget(s: Snapshot, ghost all: set<Namespace>)
      requires this in all && Apart(all) && Keyed(s.mappings.entries)
      requires forall a :: a in all && a.mappings == s.mappings ==> a.mappingsShared
      requires forall a, i :: a in all && 0 <= i < |a.snapshots| ==> a.snapshots[i].excluded != s.excluded
      modifies this`snapshots, this`memo
      ensures Apart(all) && Held() <= old(Held()) + {s.excluded}
      ensures Now().entries == old(Now()).entries
      ensures Installed(old(Now()).layers, Now().layers, Layer(s.source, s.mappings.entries, s.excluded.names))
      ensures forall b :: b in all && b != this ==> b.Now() == old(b.Now())
    {
      hide Consistent, LayersOf, Separate, Installed, Keyed;
      Install(s, all);
      memo := None;
    }

    method Install(s: Snapshot, ghost all: set<Namespace>)
      requires this in all && Separate(all) && Consistent(Now(), memo) && Keyed(s.mappings.entries)
      requires forall a :: a in all && a.mappings == s.mappings ==> a.mappingsShared
      requires forall a, i :: a in all && 0 <= i < |a.snapshots| ==> a.snapshots[i].excluded != s.excluded
      modifies this`snapshots
      ensures Separate(all) && Consistent(Now(), None) && Held() <= old(Held()) + {s.excluded}
      ensures Now().entries == old(Now()).entries
      ensures Installed(old(Now()).layers, Now().layers, Layer(s.source, s.mappings.entries, s.excluded.names))
    {
      hide Consistent, LayersOf, Separate;
      ghost var before := Now();
      ghost var l := Layer(s.source, s.mappings.entries, s.excluded.names);
      var i := FindSnapshot(s.source);
      SetSnapshot(i, s, all);
      if i < |before.layers| {
        assert Replaced(before.layers, Now().layers, l, i);
      } else {
        assert Now().layers == before.layers + [l];
      }
      ConsistentAfterInstall(before, memo, Now(), l);
    }

    method SetSnapshot(i: nat, s: Snapshot, ghost all: set<Namespace>)
      requires this in all && Separate(all) && i <= |snapshots|
      requires forall a :: a in all && a.mappings == s.mappings ==> a.mappingsShared
      requires forall a, j :: a in all && 0 <= j < |a.snapshots| ==> a.snapshots[j].excluded != s.excluded
      modifies this`snapshots
      ensures snapshots == if i < |old(snapshots)| then old(snapshots)[i := s] else old(snapshots) + [s]
      ensures Separate(all)
    {
      if i < |snapshots| {
        snapshots := snapshots[i := s];
      } else {
        snapshots := snapshots + [s];
      }
    }

    method FindSnapshot(src: Namespace) returns (i: nat)
      ensures i <= |snapshots| && (i < |snapshots| ==> snapshots[i].source == src)
      ensures forall j :: 0 <= j < i ==> snapshots[j].source != src
    {
      i := 0;
      while i < |snapshots| && snapshots[i].source != src
        invariant i <= |snapshots|
        invariant forall j :: 0 <= j < i ==> snapshots[j].source != src
      {
        i := i + 1;
      }
    }
  }

  lemma ConsistentAfterInstall(before: View, memo: Option<map<string, Value>>, after: View, l: Layer)
    requires Consistent(before, memo) && Keyed(l.entries)
    requires after.entries == before.entries && Installed(before.layers, after.layers, l)
    ensures Consistent(after, None)
  {}

  /** A reference shows nothing new except what it captured, and hides nothing that no earlier capture of the source
      showed. */
  lemma ReferredView(before: View, after: View, l: Layer, k: string)
    requires after.entries == before.entries && Installed(before.layers, after.layers, l)
    ensures !Shows(l, k) && Visible(before, k) == None ==> Visible(after, k) == None
    ensures Shows(l, k) ==> Visible(after, k).Some?
    ensures k in before.entries ==> Visible(after, k) == Visible(before, k)
  {
    if !Shows(l, k) && FromLayers(before.layers, k) == None { HiddenLayers(before.layers, after.layers, k); }
    if Shows(l, k) {
      if i :| Replaced(before.layers, after.layers, l, i) {
        SomeShows(after.layers, i, k);
      } else {
        SomeShows(after.layers, |before.layers|, k);
      }
    }
  }

  lemma {:induction false} SomeShows(layers: seq<Layer>, i: nat, k: string)
    requires i < |layers| && Shows(layers[i], k)
    ensures FromLayers(layers, k).Some?
    decreases |layers|
  {
    if i < |layers| - 1 { SomeShows(layers[..|layers| - 1], i, k); }
  }

  /**
   All namespaces together: each has a table of its own, which no snapshot holds unless it is marked as
   shared, and every snapshot has its own set of exclusions.
   */
  ghost predicate Separate(all: set<Namespace>)
    reads all`mappings, all`mappingsShared, all`snapshots
  {
    && (forall a, b :: a in all && b in all && a != b ==> a.mappings != b.mappings)
    && (forall a, b, i :: a in all && b in all && 0 <= i < |b.snapshots| && b.snapshots[i].mappings == a.mappings ==>
        a.mappingsShared)
    && (forall a, b, i, j :: a in all && b in all && 0 <= i < |a.snapshots| && 0 <= j < |b.snapshots| ==>
          (a.snapshots[i].excluded == b.snapshots[j].excluded ==> a == b && i == j))
  }

  ghost predicate Apart(all: set<Namespace>)
    reads *
  {
    Separate(all) && forall a :: a in all ==> Consistent(a.Now(), a.memo)
  }

  method NewNamespace(name: string, seed: map<string, Mapping>, ghost all: set<Namespace>) returns (ns: Namespace)
    requires Apart(all) && Keyed(seed)
    ensures fresh(ns) && Apart(all + {ns})
    ensures forall b :: b in all ==> b.Now() == old(b.Now())
    ensures ns.Now() == View(seed, [])
  {
    hide LayersOf;
    ns := new Namespace(name, seed);
    assert ns.Now().layers == [];
    assert forall b :: b in all ==> b.Now() == old(b.Now());
  }
}
