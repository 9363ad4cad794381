/**
 Multimethod dispatch (`pkg/lang/multifn.go`): the search for the best method, and the method cache
 under every interleaving of definitions, preferences, hierarchy changes and lookups.
 */
module MultiFns {
  import opened Objects

  type Key = int
  type Method = int

  /**
   A hierarchy with its identity. `parents` is acyclic: every parent has a smaller rank.
   Tables also carry an identity, because the code compares pointers.
   */
  datatype Hierarchy = Hierarchy(id: nat, parents: map<Key, seq<Key>>, rank: map<Key, nat>)

  function Parents(h: Hierarchy, k: Key): seq<Key> { if k in h.parents then h.parents[k] else [] }

  function Rank(h: Hierarchy, k: Key): nat { if k in h.rank then h.rank[k] else 0 }

  predicate Acyclic(h: Hierarchy) {
    forall k, i :: k in h.parents && 0 <= i < |h.parents[k]| ==> Rank(h, h.parents[k][i]) < Rank(h, k)
  }

  type Acyclics = h: Hierarchy | Acyclic(h) witness Hierarchy(0, map[], map[])

  datatype Definition = Definition(key: Key, fn: Method)

  /** The entries in the order in which the table's sequence visits them. */
  datatype Table = Table(id: nat, entries: seq<Definition>)

  datatype Preferences = Preferences(id: nat, over: map<Key, set<Key>>)

  /** `isa` is the language's `isa?` and the host's type rules together; `hostPrefers` the host's assignability. */
  datatype Rules = Rules(isa: (Acyclics, Key, Key) -> bool, hostPrefers: (Key, Key) -> bool)

  predicate Prefers(r: Rules, p: Preferences, h: Acyclics, x: Key, y: Key)
    decreases Rank(h, x) + Rank(h, y)
  {
    || (x in p.over && y in p.over[x])
    || (exists i :: 0 <= i < |Parents(h, y)| && Prefers(r, p, h, x, Parents(h, y)[i]))
    || (exists i :: 0 <= i < |Parents(h, x)| && Prefers(r, p, h, Parents(h, x)[i], y))
    || r.hostPrefers(x, y)
  }

  predicate Dominates(r: Rules, p: Preferences, h: Acyclics, x: Key, y: Key) {
    Prefers(r, p, h, x, y) || r.isa(h, x, y)
  }

  // ---- the search ----

  datatype Answer = Found(fn: Method) | NoMethod | Ambiguous

  /** The entries whose keys match, in table order. */
  function Matching(r: Rules, h: Acyclics, entries: seq<Definition>, dv: Key): seq<Definition> {
    if entries == [] then []
    else
      var rest := Matching(r, h, entries[1..], dv);
      if r.isa(h, dv, entries[0].key) then [entries[0]] + rest else rest
  }

  datatype Best = NoneYet | Chosen(entry: Definition) | Clash

  /** One matching entry: it replaces the best one if it dominates it, and must then be dominated by the best one. */
  function Consider(r: Rules, p: Preferences, h: Acyclics, best: Best, e: Definition): Best {
    if best.Clash? then Clash
    else
      var next := if best.NoneYet? || Dominates(r, p, h, e.key, best.entry.key) then e else best.entry;
      if Dominates(r, p, h, next.key, e.key) then Chosen(next) else Clash
  }

  function BestOf(r: Rules, p: Preferences, h: Acyclics, best: Best, ms: seq<Definition>): Best
    decreases |ms|
  {
    if ms == [] then best else BestOf(r, p, h, Consider(r, p, h, best, ms[0]), ms[1..])
  }

  function DefaultMethod(entries: seq<Definition>, default: Key): Answer {
    if entries == [] then NoMethod
    else if entries[0].key == default then Found(entries[0].fn)
    else DefaultMethod(entries[1..], default)
  }

  function Search(r: Rules, t: Table, p: Preferences, h: Acyclics, default: Key, dv: Key): Answer {
    match BestOf(r, p, h, NoneYet, Matching(r, h, t.entries, dv))
    case NoneYet => DefaultMethod(t.entries, default)
    case Chosen(e) => Found(e.fn)
    case Clash => Ambiguous
  }

  // ---- what the search finds ----

  ghost predicate Preorder(r: Rules, p: Preferences, h: Acyclics) {
    && (forall x :: Dominates(r, p, h, x, x))
    && (forall x, y, z :: Dominates(r, p, h, x, y) && Dominates(r, p, h, y, z) ==> Dominates(r, p, h, x, z))
  }

  predicate DominatesAll(r: Rules, p: Preferences, h: Acyclics, x: Key, ms: seq<Definition>) {
    forall i :: 0 <= i < |ms| ==> Dominates(r, p, h, x, ms[i].key)
  }

  /** Some entry among the first `n` dominates all of them. */
  predicate HasTop(r: Rules, p: Preferences, h: Acyclics, ms: seq<Definition>, n: nat)
    requires n <= |ms|
  {
    exists i :: 0 <= i < n && DominatesAll(r, p, h, ms[i].key, ms[..n])
  }

  /** Whatever the table order, the chosen method dominates every matching one. */
  lemma ChosenDominates(r: Rules, p: Preferences, h: Acyclics, ms: seq<Definition>)
    requires Preorder(r, p, h) && BestOf(r, p, h, NoneYet, ms).Chosen?
    ensures var e := BestOf(r, p, h, NoneYet, ms).entry;
            e in ms && DominatesAll(r, p, h, e.key, ms)
  {
    hide Dominates;
    Invariant(r, p, h, [], ms, NoneYet);
    assert [] + ms == ms;
  }

  /** Two orders of the same methods that both succeed choose keys that dominate each other. */
  lemma OrdersAgree(r: Rules, p: Preferences, h: Acyclics, ms: seq<Definition>, ns: seq<Definition>)
    requires Preorder(r, p, h) && multiset(ms) == multiset(ns)
    requires BestOf(r, p, h, NoneYet, ms).Chosen? && BestOf(r, p, h, NoneYet, ns).Chosen?
    ensures var x, y := BestOf(r, p, h, NoneYet, ms).entry.key, BestOf(r, p, h, NoneYet, ns).entry.key;
            Dominates(r, p, h, x, y) && Dominates(r, p, h, y, x)
  {
    hide Dominates, BestOf;
    ChosenDominates(r, p, h, ms);
    ChosenDominates(r, p, h, ns);
    var e, f := BestOf(r, p, h, NoneYet, ms).entry, BestOf(r, p, h, NoneYet, ns).entry;
    assert e in multiset(ns) && f in multiset(ms);
  }

  /** A found method is that of a matching entry which dominates all matching ones, or the default if none matches. */
  lemma SearchFindsDominating(r: Rules, t: Table, p: Preferences, h: Acyclics, default: Key, dv: Key)
    requires Preorder(r, p, h) && Search(r, t, p, h, default, dv).Found?
    ensures var ms := Matching(r, h, t.entries, dv);
            var m := Search(r, t, p, h, default, dv).fn;
            if ms == [] then DefaultMethod(t.entries, default) == Found(m)
            else exists e :: e in ms && e.fn == m && DominatesAll(r, p, h, e.key, ms)
  {
    hide Dominates;
    var ms := Matching(r, h, t.entries, dv);
    assert [] + ms == ms;
    Invariant(r, p, h, [], ms, NoneYet);
  }

  lemma {:induction false} Invariant(r: Rules, p: Preferences, h: Acyclics, seen: seq<Definition>,
          ms: seq<Definition>, best: Best)
    requires Preorder(r, p, h)
    requires best.NoneYet? ==> seen == []
    requires best.Chosen? ==> best.entry in seen && DominatesAll(r, p, h, best.entry.key, seen)
    ensures var b := BestOf(r, p, h, best, ms);
            && (b.NoneYet? ==> seen + ms == [])
            && (b.Chosen? ==> b.entry in seen + ms && DominatesAll(r, p, h, b.entry.key, seen + ms))
    decreases |ms|
  {
    hide Dominates;
    if ms == [] {
      assert seen + ms == seen;
    } else {
      var next := Consider(r, p, h, best, ms[0]);
      var now := seen + [ms[0]];
      if next.Chosen? {
        Considered(r, p, h, seen, best, ms[0]);
      }
      Invariant(r, p, h, now, ms[1..], next);
      assert now + ms[1..] == seen + ms;
    }
  }

  lemma Considered(r: Rules, p: Preferences, h: Acyclics, seen: seq<Definition>, best: Best, e: Definition)
    requires Preorder(r, p, h) && !best.Clash?
    requires best.NoneYet? ==> seen == []
    requires best.Chosen? ==> best.entry in seen && DominatesAll(r, p, h, best.entry.key, seen)
    ensures var next := Consider(r, p, h, best, e);
            next.Chosen? ==> next.entry in seen + [e] && DominatesAll(r, p, h, next.entry.key, seen + [e])
  {
    hide Dominates;
    var next := Consider(r, p, h, best, e);
    if next.Chosen? {
      forall i | 0 <= i < |seen + [e]|
        ensures Dominates(r, p, h, next.entry.key, (seen + [e])[i].key)
      {
        if i < |seen| && next.entry == e && best.Chosen? && Dominates(r, p, h, e.key, best.entry.key) {
          assert Dominates(r, p, h, best.entry.key, seen[i].key);
        }
      }
    }
  }

  /** The search succeeds exactly when every prefix of the matching entries has an entry that dominates it. */
  lemma SucceedsIffPrefixesHaveTops(r: Rules, p: Preferences, h: Acyclics, ms: seq<Definition>)
    requires Preorder(r, p, h)
    ensures !BestOf(r, p, h, NoneYet, ms).Clash? <==> forall n :: 0 < n <= |ms| ==> HasTop(r, p, h, ms, n)
  {
    hide Dominates, BestOf;
    assert ms == [] + ms;
    PrefixTops(r, p, h, [], ms, NoneYet);
  }

  lemma {:induction false} PrefixTops(r: Rules, p: Preferences, h: Acyclics, seen: seq<Definition>,
          ms: seq<Definition>, best: Best)
    requires Preorder(r, p, h) && !best.Clash?
    requires best.NoneYet? <==> seen == []
    requires best.Chosen? ==> best.entry in seen && DominatesAll(r, p, h, best.entry.key, seen)
    ensures !BestOf(r, p, h, best, ms).Clash?
            <==> forall n :: |seen| < n <= |seen + ms| ==> HasTop(r, p, h, seen + ms, n)
    decreases |ms|
  {
    hide Dominates;
    if ms == [] {
    } else {
      var all, now := seen + ms, seen + [ms[0]];
      var next := Consider(r, p, h, best, ms[0]);
      assert all[..|now|] == now;
      ClashIffNoTop(r, p, h, seen, best, ms[0], all);
      if next.Clash? {
        ClashStays(r, p, h, ms[1..]);
      } else {
        Considered(r, p, h, seen, best, ms[0]);
        PrefixTops(r, p, h, now, ms[1..], next);
        assert now + ms[1..] == all;
      }
    }
  }

  lemma {:induction false} ClashStays(r: Rules, p: Preferences, h: Acyclics, ms: seq<Definition>)
    ensures BestOf(r, p, h, Clash, ms) == Clash
    decreases |ms|
  {
    if ms != [] { ClashStays(r, p, h, ms[1..]); }
  }

  lemma ClashIffNoTop(r: Rules, p: Preferences, h: Acyclics, seen: seq<Definition>, best: Best, e: Definition,
          all: seq<Definition>)
    requires Preorder(r, p, h) && !best.Clash? && |seen| < |all| && all[..|seen| + 1] == seen + [e]
    requires best.NoneYet? <==> seen == []
    requires best.Chosen? ==> best.entry in seen && DominatesAll(r, p, h, best.entry.key, seen)
    ensures Consider(r, p, h, best, e).Clash? <==> !HasTop(r, p, h, all, |seen| + 1)
  {
    hide Dominates;
    var next := Consider(r, p, h, best, e);
    var now := seen + [e];
    if next.Chosen? {
      Considered(r, p, h, seen, best, e);
      var i :| 0 <= i < |now| && now[i] == next.entry;
      assert all[i] == now[i];
    }
    if HasTop(r, p, h, all, |seen| + 1) {
      var i :| 0 <= i < |seen| + 1 && DominatesAll(r, p, h, all[i].key, all[..|seen| + 1]);
      assert all[i] == now[i];
      TopSurvives(r, p, h, seen, best, e, now[i]);
    }
  }

  lemma TopSurvives(r: Rules, p: Preferences, h: Acyclics, seen: seq<Definition>, best: Best, e: Definition,
          top: Definition)
    requires Preorder(r, p, h) && !best.Clash?
    requires best.NoneYet? <==> seen == []
    requires best.Chosen? ==> best.entry in seen && DominatesAll(r, p, h, best.entry.key, seen)
    requires top in seen + [e] && DominatesAll(r, p, h, top.key, seen + [e])
    ensures Consider(r, p, h, best, e).Chosen?
  {
    hide Dominates;
    var now := seen + [e];
    assert now[|seen|] == e;
    if best.Chosen? {
      var j :| 0 <= j < |seen| && seen[j] == best.entry;
      assert now[j] == best.entry;
      if top != e {
        var k :| 0 <= k < |seen| && seen[k] == top;
        assert Dominates(r, p, h, best.entry.key, seen[k].key);
      }
    }
  }

  /** The order matters: where the third key dominates two that are incomparable, they clash if they come first. */
  lemma OrderMatters(r: Rules, p: Preferences, h: Acyclics, a: Definition, b: Definition, d: Definition)
    requires Preorder(r, p, h)
    requires !Dominates(r, p, h, a.key, b.key) && !Dominates(r, p, h, b.key, a.key)
    requires Dominates(r, p, h, d.key, a.key) && Dominates(r, p, h, d.key, b.key)
    requires !Dominates(r, p, h, a.key, d.key) && !Dominates(r, p, h, b.key, d.key)
    ensures BestOf(r, p, h, NoneYet, [a, b, d]) == Clash
    ensures BestOf(r, p, h, NoneYet, [d, a, b]) == BestOf(r, p, h, NoneYet, [a, d, b]) == Chosen(d)
  {
    hide Dominates;
    ThreeSteps(r, p, h, a, b, d);
    ThreeSteps(r, p, h, d, a, b);
    ThreeSteps(r, p, h, a, d, b);
  }

  lemma ThreeSteps(r: Rules, p: Preferences, h: Acyclics, a: Definition, b: Definition, c: Definition)
    ensures BestOf(r, p, h, NoneYet, [a, b, c])
            == Consider(r, p, h, Consider(r, p, h, Consider(r, p, h, NoneYet, a), b), c)
  {
    hide Consider;
    var one := Consider(r, p, h, NoneYet, a);
    var two := Consider(r, p, h, one, b);
    assert [a, b, c][1..] == [b, c] && [b, c][1..] == [c] && [c][1..] == [];
    assert BestOf(r, p, h, two, [c]) == Consider(r, p, h, two, c);
    assert BestOf(r, p, h, one, [b, c]) == BestOf(r, p, h, two, [c]);
  }

  // ---- the shared state, and lookups in progress ----

  /**
   The fields of a MultiFn, and the hierarchy reference it watches. `clock` numbers the tables and
   hierarchies that have existed: none comes back once it has been replaced.
   */
  datatype Shared = Shared(
    table: Table,
    prefs: Preferences,
    cache: map<Key, Option<Method>>,
    cachedHierarchy: Acyclics,
    hierarchy: Acyclics,
    clock: nat)

  /**
   Where a lookup of `dv` is: about to take its snapshot, about to search, or about to store what it
   found. Each step is one critical section of the code.
   */
  datatype Lookup =
    | Idle
    | Missed(dv: Key)
    | Searching(dv: Key, table: Table, prefs: Preferences, cached: Acyclics)
    | Storing(dv: Key, table: Table, prefs: Preferences, cached: Acyclics, best: Option<Method>)
    | Returned(dv: Key, result: Option<Method>)
    | Panicked(dv: Key)

  datatype State = State(shared: Shared, threads: map<nat, Lookup>)

  datatype Action =
    | AddMethod(key: Key, fn: Method)
    | PreferMethod(over: Key, under: Key)
    | ChangeHierarchy(next: Acyclics)
    | GetMethod(thread: nat, dv: Key)
    | Snapshot(thread: nat)
    | FindBest(thread: nat)
    | Store(thread: nat)

  function Put(entries: seq<Definition>, k: Key, f: Method): seq<Definition> {
    if entries == [] then [Definition(k, f)]
    else if entries[0].key == k then [Definition(k, f)] + entries[1..]
    else [entries[0]] + Put(entries[1..], k, f)
  }

  function Reset(s: Shared): Shared { s.(cache := map[], cachedHierarchy := s.hierarchy) }

  /** `Assoc` of what is already there returns the same table, with the same identity. */
  function AssocTable(t: Table, k: Key, f: Method, clock: nat): Table {
    if Put(t.entries, k, f) == t.entries then t else Table(clock, Put(t.entries, k, f))
  }

  function AddMethodTo(s: Shared, k: Key, f: Method): Shared {
    Reset(s.(table := AssocTable(s.table, k, f, s.clock), clock := s.clock + 1))
  }

  function Preferred(p: Preferences, x: Key): set<Key> { if x in p.over then p.over[x] else {} }

  /** `None` is the conflict panic, which leaves everything as it was. */
  function PreferMethodIn(r: Rules, s: Shared, x: Key, y: Key): Option<Shared> {
    if Prefers(r, s.prefs, s.hierarchy, y, x) then None
    else
      var over := s.prefs.over[x := Preferred(s.prefs, x) + {y}];
      var next := if over == s.prefs.over then s.prefs else Preferences(s.clock, over);
      Some(Reset(s.(prefs := next, clock := s.clock + 1)))
  }

  predicate DistinctKeys(entries: seq<Definition>) {
    forall i, j :: 0 <= i < j < |entries| ==> entries[i].key != entries[j].key
  }

  /** Defining a method: looked up by its very key it is there, and every other definition stays. */
  lemma AddMethodDefines(s: Shared, k: Key, f: Method, q: Key)
    requires DistinctKeys(s.table.entries)
    ensures var next := AddMethodTo(s, k, f);
            && DefaultMethod(next.table.entries, q) == (if q == k then Found(f) else DefaultMethod(s.table.entries, q))
            && DistinctKeys(next.table.entries)
            && next.cache == map[] && next.cachedHierarchy == s.hierarchy
  {
    PutDefines(s.table.entries, k, f, q);
  }

  lemma {:induction false} PutDefines(entries: seq<Definition>, k: Key, f: Method, q: Key)
    requires DistinctKeys(entries)
    ensures DefaultMethod(Put(entries, k, f), q) == if q == k then Found(f) else DefaultMethod(entries, q)
    ensures DistinctKeys(Put(entries, k, f))
    ensures forall i :: 0 <= i < |Put(entries, k, f)| ==>
            Put(entries, k, f)[i].key == k || Put(entries, k, f)[i] in entries
  {
    if entries != [] && entries[0].key != k { PutDefines(entries[1..], k, f, q); }
  }

  /** A preference is refused exactly when the opposite one holds; otherwise it holds afterwards, with all earlier
      ones. */
  lemma PreferMethodPrefers(r: Rules, s: Shared, x: Key, y: Key, a: Key, b: Key)
    ensures var next := PreferMethodIn(r, s, x, y);
            && (next.None? <==> Prefers(r, s.prefs, s.hierarchy, y, x))
            && (next.Some? ==> Prefers(r, next.value.prefs, s.hierarchy, x, y) && next.value.cache == map[])
            && (next.Some? && Prefers(r, s.prefs, s.hierarchy, a, b) ==>
                Prefers(r, next.value.prefs, s.hierarchy, a, b))
  {
    var next := PreferMethodIn(r, s, x, y);
    if next.Some? && Prefers(r, s.prefs, s.hierarchy, a, b) {
      PrefersMore(r, s.prefs, next.value.prefs, s.hierarchy, a, b);
    }
  }

  lemma {:induction false} PrefersMore(r: Rules, p: Preferences, more: Preferences, h: Acyclics, x: Key, y: Key)
    requires forall k :: k in p.over ==> k in more.over && p.over[k] <= more.over[k]
    requires Prefers(r, p, h, x, y)
    ensures Prefers(r, more, h, x, y)
    decreases Rank(h, x) + Rank(h, y)
  {
    if i :| 0 <= i < |Parents(h, y)| && Prefers(r, p, h, x, Parents(h, y)[i]) {
      PrefersMore(r, p, more, h, x, Parents(h, y)[i]);
    } else if i :| 0 <= i < |Parents(h, x)| && Prefers(r, p, h, Parents(h, x)[i], y) {
      PrefersMore(r, p, more, h, Parents(h, x)[i], y);
    }
  }

  /** `getMethod` up to its unlock: a stale cache is dropped first. */
  function Refreshed(s: Shared): Shared {
    if s.cachedHierarchy != s.hierarchy then Reset(s) else s
  }

  function Cached(s: Shared, dv: Key): Option<Method> { if dv in s.cache then s.cache[dv] else None }

  predicate Unchanged(s: Shared, t: Table, p: Preferences, c: Acyclics) {
    t == s.table && p == s.prefs && c == s.cachedHierarchy && s.cachedHierarchy == s.hierarchy
  }

  function Step(r: Rules, default: Key, st: State, a: Action): State {
    var s := st.shared;
    match a
    case AddMethod(k, f) => st.(shared := AddMethodTo(s, k, f))
    case PreferMethod(x, y) =>
      var next := PreferMethodIn(r, s, x, y);
      if next.None? then st else st.(shared := next.value)
    case ChangeHierarchy(h) =>
      st.(shared := s.(hierarchy := Hierarchy(s.clock, h.parents, h.rank), clock := s.clock + 1))
    case GetMethod(i, dv) =>
      if i in st.threads && !st.threads[i].Idle? && !st.threads[i].Returned? && !st.threads[i].Panicked? then st
      else
        var next := Refreshed(s);
        var hit := Cached(next, dv);
        State(next, st.threads[i := if hit.Some? then Returned(dv, hit) else Missed(dv)])
    case Snapshot(i) =>
      if i !in st.threads || !st.threads[i].Missed? then st
      else st.(threads := st.threads[i := Searching(st.threads[i].dv, s.table, s.prefs, s.cachedHierarchy)])
    case FindBest(i) =>
      if i !in st.threads || !st.threads[i].Searching? then st
      else
        var l := st.threads[i];
        var answer := Search(r, s.table, s.prefs, s.cachedHierarchy, default, l.dv);
        var next := if answer.Ambiguous? then Panicked(l.dv)
                    else Storing(l.dv, l.table, l.prefs, l.cached, if answer.Found? then Some(answer.fn) else None);
        st.(threads := st.threads[i := next])
    case Store(i) =>
      if i !in st.threads || !st.threads[i].Storing? then st
      else
        var l := st.threads[i];
        if !Unchanged(s, l.table, l.prefs, l.cached) then
          State(Reset(s), st.threads[i := Missed(l.dv)])
        else
          State(s.(cache := s.cache[l.dv := l.best]), st.threads[i := Returned(l.dv, l.best)])
  }

  function Run(r: Rules, default: Key, st: State, actions: seq<Action>): State
    decreases |actions|
  {
    if actions == [] then st else Run(r, default, Step(r, default, st, actions[0]), actions[1..])
  }

  /** `NewMultiFn`: an empty table, and `cachedHierarchy` nil, which no hierarchy equals. */
  function Fresh(h: Acyclics): State {
    State(Shared(Table(0, []), Preferences(0, map[]), map[], Hierarchy(0, map[], map[]),
      Hierarchy(1, h.parents, h.rank), 2), map[])
  }

  // ---- the invariant ----

  function Answered(m: Option<Method>): Answer { if m.Some? then Found(m.value) else NoMethod }

  /** An uncached search of the present tables and the cached hierarchy. */
  function Uncached(r: Rules, default: Key, s: Shared, dv: Key): Answer {
    Search(r, s.table, s.prefs, s.cachedHierarchy, default, dv)
  }

  predicate Older(id: nat, now: nat, same: bool) { id <= now && (id == now ==> same) }

  /** A snapshot is at most as new as the present state, and equal to what it is as new as. */
  predicate Seen(s: Shared, t: Table, p: Preferences, c: Acyclics) {
    && Older(t.id, s.table.id, t == s.table)
    && Older(p.id, s.prefs.id, p == s.prefs)
    && Older(c.id, s.cachedHierarchy.id, c == s.cachedHierarchy)
  }

  predicate Clocked(s: Shared) {
    && s.table.id < s.clock && s.prefs.id < s.clock && s.hierarchy.id < s.clock
    && Older(s.cachedHierarchy.id, s.hierarchy.id, s.cachedHierarchy == s.hierarchy)
  }

  ghost predicate LookupOk(r: Rules, default: Key, s: Shared, l: Lookup) {
    match l
    case Searching(_, t, p, c) => Seen(s, t, p, c)
    case Storing(dv, t, p, c, best) =>
      Seen(s, t, p, c) && (t == s.table && p == s.prefs && c == s.cachedHierarchy ==>
        Answered(best) == Uncached(r, default, s, dv))
    case _ => true
  }

  ghost predicate CacheOk(r: Rules, default: Key, s: Shared) {
    forall dv :: dv in s.cache ==> Answered(s.cache[dv]) == Uncached(r, default, s, dv)
  }

  ghost predicate Inv(r: Rules, default: Key, st: State) {
    && Clocked(st.shared)
    && CacheOk(r, default, st.shared)
    && (forall i :: i in st.threads ==> LookupOk(r, default, st.shared, st.threads[i]))
  }

  /** One step of anybody keeps the invariant: in particular lookups that search while the tables change. */
  lemma StepKeepsInv(r: Rules, default: Key, st: State, a: Action)
    requires Inv(r, default, st)
    ensures Inv(r, default, Step(r, default, st, a))
  {
    hide Search, Prefers, Put;
    var next := Step(r, default, st, a);
    Advance(r, default, st.shared, next.shared, a, st);
    forall i | i in next.threads
      ensures LookupOk(r, default, next.shared, next.threads[i])
    {
      if i in st.threads && next.threads[i] == st.threads[i] {
        StaysOk(r, default, st.shared, next.shared, st.threads[i]);
      }
    }
  }

  /** The shared state moves on: identities only grow, and what keeps its identity is unchanged. */
  predicate MovesTo(s: Shared, next: Shared) {
    && Older(s.table.id, next.table.id, s.table == next.table)
    && Older(s.prefs.id, next.prefs.id, s.prefs == next.prefs)
    && Older(s.cachedHierarchy.id, next.cachedHierarchy.id, s.cachedHierarchy == next.cachedHierarchy)
  }

  lemma Advance(r: Rules, default: Key, s: Shared, next: Shared, a: Action, st: State)
    requires Inv(r, default, st) && s == st.shared && next == Step(r, default, st, a).shared
    ensures MovesTo(s, next) && Clocked(next) && CacheOk(r, default, next)
  {
    hide Search, Prefers, Put;
  }

  lemma StaysOk(r: Rules, default: Key, s: Shared, next: Shared, l: Lookup)
    requires LookupOk(r, default, s, l) && MovesTo(s, next)
    ensures LookupOk(r, default, next, l)
  {
    hide Search;
  }

  /** Every reachable state, under every interleaving. */
  lemma {:induction false} RunKeepsInv(r: Rules, default: Key, st: State, actions: seq<Action>)
    requires Inv(r, default, st)
    ensures Inv(r, default, Run(r, default, st, actions))
    decreases |actions|
  {
    hide Step, Inv;
    if actions != [] {
      StepKeepsInv(r, default, st, actions[0]);
      RunKeepsInv(r, default, Step(r, default, st, actions[0]), actions[1..]);
    }
  }

  lemma FreshInv(r: Rules, default: Key, h: Acyclics)
    ensures Inv(r, default, Fresh(h))
  {}

  /** In every run, a cached method is what an uncached search of the present tables finds. */
  lemma CacheIsSearch(r: Rules, default: Key, h: Acyclics, actions: seq<Action>, dv: Key)
    ensures var s := Run(r, default, Fresh(h), actions).shared;
            Cached(s, dv).Some? ==> Uncached(r, default, s, dv) == Found(Cached(s, dv).value)
  {
    hide Run, Fresh, Uncached;
    FreshInv(r, default, h);
    RunKeepsInv(r, default, Fresh(h), actions);
  }

  /** When a lookup returns, its answer is the search of the tables and of the hierarchy of that very moment. */
  lemma LookupReturnsSearch(r: Rules, default: Key, st: State, a: Action, i: nat)
    requires Inv(r, default, st)
    requires a == Store(i) || (a.GetMethod? && a.thread == i)
    ensures var next := Step(r, default, st, a);
            i in next.threads && next.threads[i].Returned? && (i !in st.threads || next.threads[i] != st.threads[i])
            ==> Answered(next.threads[i].result)
                == Search(r, st.shared.table, st.shared.prefs, st.shared.hierarchy, default, next.threads[i].dv)
  {
    hide Search;
  }

  // ---- the object itself ----

  class MultiFn {
    const rules: Rules
    const default: Key
    var methodTable: Table
    var preferTable: Preferences
    var methodCache: map<Key, Option<Method>>
    var cachedHierarchy: Acyclics
    var hierarchy: Acyclics
    var clock: nat

    constructor (rules: Rules, default: Key, h: Acyclics)
      ensures this.rules == rules && this.default == default
      ensures Now() == Fresh(h).shared
    {
      this.rules := rules;
      this.default := default;
      methodTable := Table(0, []);
      preferTable := Preferences(0, map[]);
      methodCache := map[];
      cachedHierarchy := Hierarchy(0, map[], map[]);
      hierarchy := Hierarchy(1, h.parents, h.rank);
      clock := 2;
    }

    function Now(): Shared
      reads this
    {
      Shared(methodTable, preferTable, methodCache, cachedHierarchy, hierarchy, clock)
    }

    method ResetCache()
      modifies this
      ensures Now() == Reset(old(Now()))
    {
      methodCache := map[];
      cachedHierarchy := hierarchy;
    }

    method AddMethod(k: Key, f: Method)
      modifies this
      ensures Now() == AddMethodTo(old(Now()), k, f)
    {
      methodTable := AssocTable(methodTable, k, f, clock);
      clock := clock + 1;
      ResetCache();
    }

    /** `conflict` is the panic. */
    method PreferMethod(x: Key, y: Key) returns (conflict: bool)
      modifies this
      ensures conflict <==> PreferMethodIn(rules, old(Now()), x, y).None?
      ensures conflict ==> Now() == old(Now())
      ensures !conflict ==> Some(Now()) == PreferMethodIn(rules, old(Now()), x, y)
    {
      if Prefers(rules, preferTable, hierarchy, y, x) {
        return true;
      }
      var over := preferTable.over[x := Preferred(preferTable, x) + {y}];
      preferTable := if over == preferTable.over then preferTable else Preferences(clock, over);
      clock := clock + 1;
      ResetCache();
      conflict := false;
    }

    /** The loop over the table: `Ambiguous` is the panic. */
    method FindBestMethod(dv: Key) returns (a: Answer)
      ensures a == Uncached(rules, default, Now(), dv)
    {
      hide Dominates;
      var entries := methodTable.entries;
      var best := NoneYet;
      for i := 0 to |entries|
        invariant !best.Clash?
        invariant BestOf(rules, preferTable, cachedHierarchy, NoneYet, Matching(rules, cachedHierarchy, entries, dv))
               == BestOf(rules, preferTable, cachedHierarchy, best, Matching(rules, cachedHierarchy, entries[i..], dv))
      {
        var e := entries[i];
        assert entries[i..][0] == e && entries[i..][1..] == entries[i + 1..];
        if rules.isa(cachedHierarchy, dv, e.key) {
          ghost var rest := Matching(rules, cachedHierarchy, entries[i + 1..], dv);
          assert ([e] + rest)[0] == e && ([e] + rest)[1..] == rest;
          ghost var before := best;
          var chosen := e;
          if best.Chosen? && !Dominates(rules, preferTable, cachedHierarchy, e.key, best.entry.key) {
            chosen := best.entry;
          }
          if !Dominates(rules, preferTable, cachedHierarchy, chosen.key, e.key) {
            ClashStays(rules, preferTable, cachedHierarchy, rest);
            return Ambiguous;
          }
          best := Chosen(chosen);
          assert best == Consider(rules, preferTable, cachedHierarchy, before, e);
        }
      }
      assert entries[|entries|..] == [];
      if best.NoneYet? {
        a := DefaultMethod(entries, default);
      } else {
        a := Found(best.entry.fn);
      }
    }

    /** A lookup that nobody interrupts: it answers from the present tables and hierarchy, and caches what it found. */
    method GetMethod(dv: Key) returns (a: Answer)
      requires Clocked(Now()) && CacheOk(rules, default, Now())
      modifies this
      ensures a == Search(rules, methodTable, preferTable, hierarchy, default, dv)
      ensures Clocked(Now()) && CacheOk(rules, default, Now())
      ensures Now() == old(Now()).(cache := methodCache, cachedHierarchy := hierarchy)
      ensures !a.Ambiguous? ==> Cached(Now(), dv) == if a.Found? then Some(a.fn) else None
    {
      hide Search;
      if cachedHierarchy != hierarchy {
        ResetCache();
      }
      var hit := Cached(Now(), dv);
      if hit.Some? {
        return Found(hit.value);
      }
      a := FindBestMethod(dv);
      if !a.Ambiguous? {
        methodCache := methodCache[dv := if a.Found? then Some(a.fn) else None];
      }
    }
  }
}
