/**
 Any operations on any namespaces, one after the other (`pkg/lang/namespace.go`): the tables, however they are
 shared and copied, take steps between views, and what becomes visible where is read off these steps.
 */
module NamespaceRuns {
  import opened Objects
  import opened Namespaces

  datatype Operation =
    | Intern(ns: Namespace, key: string)
    | Refer(ns: Namespace, key: string, val: Value)
    | Unmap(ns: Namespace, key: string)
    | ReferAll(ns: Namespace, src: Namespace, excluded: seq<string>)
    | Mappings(ns: Namespace)

  /** What each namespace shows. */
  type World = map<Namespace, View>

  ghost function Views(all: set<Namespace>): World
    reads *
  {
    map a | a in all :: a.Now()
  }

  predicate Among(op: Operation, all: set<Namespace>) { op.ns in all && (op.ReferAll? ==> op.src in all) }

  // ---- steps between views ----

  /** One operation, on what the namespaces show before and after it. */
  ghost predicate Step(op: Operation, vs: World, ws: World) {
    && ws.Keys == vs.Keys && Among(op, vs.Keys)
    && (forall b :: b in vs && b != op.ns ==> ws[b] == vs[b])
    && Changed(op, vs, vs[op.ns], ws[op.ns])
  }

  ghost predicate Changed(op: Operation, vs: World, before: View, after: View)
    requires Among(op, vs.Keys)
  {
    match op
    case Intern(ns, key) =>
      && OnlyAt(key, before, after)
      && Visible(after, key).Some? && IsInterned(ns, key, Visible(after, key).value.val)
    case Refer(ns, key, val) =>
      var prior := Visible(before, key);
      && OnlyAt(key, before, after) && Visible(after, key).Some?
      && Visible(after, key).value.val ==
         if prior.Some? && Keeps(ns, key, prior.value.val, val) then prior.value.val else val
    case Unmap(_, key) => OnlyAt(key, before, after) && Visible(after, key) == None
    case ReferAll(_, src, excluded) =>
      && after.entries == before.entries
      && exists i :: 0 <= i < |after.layers| && Captures(after.layers[i], src, vs[src], excluded)
                     && Installed(before.layers, after.layers, after.layers[i])
    case Mappings(_) => after == before
  }

  predicate ShownAlike(k: string, before: View, after: View) { Visible(after, k) == Visible(before, k) }

  ghost predicate OnlyAt(key: string, before: View, after: View) {
    forall k :: k != key ==> ShownAlike(k, before, after)
  }

  ghost predicate Steps(ops: seq<Operation>, history: seq<World>) {
    |history| == |ops| + 1 && forall i :: 0 <= i < |ops| ==> Step(ops[i], history[i], history[i + 1])
  }

  // ---- a name comes back only by being bound or referred to again ----

  /** The operation makes the name visible in `ns`: it binds it there, or refers to a namespace that shows a Var. */
  predicate Brings(op: Operation, vs: World, ns: Namespace, key: string) {
    op.ns == ns &&
    match op
    case Intern(_, k) => k == key
    case Refer(_, k, _) => k == key
    case ReferAll(_, src, excluded) =>
      && key !in excluded && src in vs && Visible(vs[src], key).Some?
      && IsInterned(src, key, Visible(vs[src], key).value.val)
    case _ => false
  }

  lemma StepShows(op: Operation, vs: World, ws: World, ns: Namespace, key: string)
    requires Step(op, vs, ws) && ns in vs && Visible(vs[ns], key) == None
    ensures Visible(ws[ns], key).Some? <==> Brings(op, vs, ns, key)
  {
    hide Visible, Installed;
    if op.ns == ns {
      match op
      case ReferAll(_, src, excluded) =>
        var after := ws[ns].layers;
        var i :| 0 <= i < |after| && Captures(after[i], src, vs[src], excluded)
                 && Installed(vs[ns].layers, after, after[i]);
        var l := after[i];
        ReferredView(vs[ns], ws[ns], l, key);
        CapturedShows(l, src, vs[src], excluded, key);
      case Intern(_, k) => assert k == key || ShownAlike(key, vs[ns], ws[ns]);
      case Refer(_, k, _) => assert k == key || ShownAlike(key, vs[ns], ws[ns]);
      case Unmap(_, k) => assert k == key || ShownAlike(key, vs[ns], ws[ns]);
      case Mappings(_) =>
    }
  }

  lemma CapturedShows(l: Layer, src: Namespace, v: View, excluded: seq<string>, key: string)
    requires Captures(l, src, v, excluded)
    ensures Shows(l, key) <==>
            key !in excluded && Visible(v, key).Some? && IsInterned(src, key, Visible(v, key).value.val)
  {
    hide Visible;
  }

  /** Over any run: a hidden name stays hidden exactly as long as no operation brings it. */
  lemma {:induction false} HiddenUntilBrought(ops: seq<Operation>, history: seq<World>, ns: Namespace, key: string)
    requires Steps(ops, history) && ns in history[0] && Visible(history[0][ns], key) == None
    ensures forall i :: 0 <= i < |history| ==> ns in history[i]
    ensures (forall i :: 0 <= i < |history| ==> Visible(history[i][ns], key) == None)
            <==> (forall i :: 0 <= i < |ops| ==> !Brings(ops[i], history[i], ns, key))
    decreases |ops|
  {
    hide Visible, Changed, Brings;
    KeysKept(ops, history, ns);
    if ops != [] {
      StepShows(ops[0], history[0], history[1], ns, key);
      if Visible(history[1][ns], key) == None {
        var rest, later := ops[1..], history[1..];
        assert forall i :: 0 <= i < |rest| ==> rest[i] == ops[i + 1] && later[i] == history[i + 1];
        HiddenUntilBrought(rest, later, ns, key);
        FirstAndRest(ops, history, ns, key);
      }
    }
  }

  lemma {:induction false} KeysKept(ops: seq<Operation>, history: seq<World>, ns: Namespace)
    requires Steps(ops, history) && ns in history[0]
    ensures forall i :: 0 <= i < |history| ==> ns in history[i]
    decreases |ops|
  {
    hide Changed;
    if ops != [] {
      var rest, later := ops[1..], history[1..];
      assert forall i :: 0 <= i < |rest| ==> rest[i] == ops[i + 1] && later[i] == history[i + 1];
      KeysKept(rest, later, ns);
      assert forall i :: 1 <= i < |history| ==> history[i] == later[i - 1];
    }
  }

  lemma FirstAndRest(ops: seq<Operation>, history: seq<World>, ns: Namespace, key: string)
    requires |history| == |ops| + 1 && ops != [] && forall i :: 0 <= i < |history| ==> ns in history[i]
    ensures (forall i :: 0 <= i < |history| ==> Visible(history[i][ns], key) == None) <==>
            Visible(history[0][ns], key) == None
            && forall i :: 0 <= i < |history[1..]| ==> Visible(history[1..][i][ns], key) == None
    ensures (forall i :: 0 <= i < |ops| ==> !Brings(ops[i], history[i], ns, key)) <==>
            !Brings(ops[0], history[0], ns, key)
            && forall i :: 0 <= i < |ops[1..]| ==> !Brings(ops[1..][i], history[1..][i], ns, key)
  {
    hide Visible, Brings;
    assert forall i :: 1 <= i < |history| ==> history[i] == history[1..][i - 1];
    assert forall i :: 1 <= i < |ops| ==> ops[i] == ops[1..][i - 1];
  }

  // ---- the objects take these steps ----

  ghost function Held(all: set<Namespace>): set<object>
    reads all
  {
    set a, o | a in all && o in a.Held() :: o
  }

  lemma InstalledSomewhere(before: seq<Layer>, after: seq<Layer>, l: Layer)
    requires Installed(before, after, l)
    ensures l in after
  {
    if i :| Replaced(before, after, l, i) { assert after[i] == l; } else { assert after[|before|] == l; }
  }

  lemma HeldAmong(op: Operation, all: set<Namespace>)
    requires Among(op, all)
    ensures op.ns in all && op.ns.Held() <= Held(all) && (op.ReferAll? ==> op.src in all)
  {}

  lemma ReferAllChanges(ns: Namespace, src: Namespace, excluded: seq<string>, vs: World, before: View, after: View,
          l: Layer)
    requires ns in vs && src in vs && after.entries == before.entries && l in after.layers
    requires Captures(l, src, vs[src], excluded) && Installed(before.layers, after.layers, l)
    ensures Changed(ReferAll(ns, src, excluded), vs, before, after)
  {
    hide Captures, Installed;
  }

  /** The operation itself: what it changes in its namespace, and that it changes no other. */
  method Call(op: Operation, ghost all: set<Namespace>)
    requires Apart(all) && Among(op, all)
    modifies op.ns, op.ns.Held(), if op.ReferAll? then {op.src} else {}
    ensures Apart(all) && fresh(op.ns.Held() - old(op.ns.Held()))
    ensures Changed(op, old(Views(all)), old(op.ns.Now()), op.ns.Now())
    ensures forall b :: b in all && b != op.ns ==> b.Now() == old(b.Now()) && b.Held() == old(b.Held())
  {
    hide Namespace.Now, Separate, Consistent, LayersOf, Visible, Captures, Installed;
    if op.ReferAll? {
      CallReferAll(op.ns, op.src, op.excluded, all);
    } else {
      match op {
        case Intern(ns, key) =>
          var v := ns.Intern(key, all);
        case Refer(ns, key, val) =>
          var r := ns.Reference(key, val, all);
        case Unmap(ns, key) =>
          ns.Unmap(key, all);
        case Mappings(ns) =>
          var m := ns.Mappings(all);
      }
    }
  }

  method CallReferAll(ns: Namespace, src: Namespace, excluded: seq<string>, ghost all: set<Namespace>)
    requires Apart(all) && ns in all && src in all
    modifies ns, src`mappingsShared
    ensures Apart(all) && fresh(ns.Held() - old(ns.Held()))
    ensures Changed(ReferAll(ns, src, excluded), old(Views(all)), old(ns.Now()), ns.Now())
    ensures forall b :: b in all && b != ns ==> b.Now() == old(b.Now()) && b.Held() == old(b.Held())
  {
    hide Namespace.Now, Separate, Consistent, LayersOf, Visible, Captures, Installed, Changed;
    ghost var before, view := ns.Now(), src.Now();
    ns.ReferAllSnapshot(src, excluded, all);
    ghost var l :| Captures(l, src, view, excluded) && Installed(before.layers, ns.Now().layers, l);
    InstalledSomewhere(before.layers, ns.Now().layers, l);
    ReferAllChanges(ns, src, excluded, old(Views(all)), before, ns.Now(), l);
  }

  method Perform(op: Operation, ghost all: set<Namespace>)
    requires Apart(all) && Among(op, all)
    modifies op.ns, op.ns.Held(), if op.ReferAll? then {op.src} else {}
    ensures Apart(all) && fresh(Held(all) - old(Held(all)))
    ensures Step(op, old(Views(all)), Views(all))
  {
    hide Namespace.Now, Namespace.Held, Separate, Consistent, LayersOf, Changed;
    Call(op, all);
    forall o | o in Held(all) && o !in old(Held(all))
      ensures fresh(o)
    {
      var a :| a in all && o in a.Held();
      assert o !in old(a.Held());
      assert a == op.ns;
    }
  }

  /** Every run of the objects is a run of steps. */
  method Run(ops: seq<Operation>, ghost all: set<Namespace>) returns (ghost history: seq<World>)
    requires Apart(all) && forall op :: op in ops ==> Among(op, all)
    modifies all, Held(all)
    ensures Apart(all) && Steps(ops, history)
    ensures history[0] == old(Views(all)) && history[|ops|] == Views(all)
  {
    hide Apart, Step, Held, Views, Among;
    history := [Views(all)];
    for i := 0 to |ops|
      invariant Apart(all) && fresh(Held(all) - old(Held(all)))
      invariant Steps(ops[..i], history) && history[0] == old(Views(all)) && history[i] == Views(all)
    {
      assert ops[i] in ops;
      HeldAmong(ops[i], all);
      ghost var held := Held(all);
      label before:
      Perform(ops[i], all);
      assert forall o | o in Held(all) && o !in held :: fresh@before(o);
      assert forall o: object | o in Held(all) && o !in held :: fresh(o);
      history := history + [Views(all)];
      assert ops[..i + 1] == ops[..i] + [ops[i]];
    }
    assert ops[..|ops|] == ops;
  }

  /** After `Unmap`, whatever is done to any namespaces, the name is invisible until some operation brings it back. */
  method UnmapThenRun(ns: Namespace, key: string, ops: seq<Operation>,
          ghost all: set<Namespace>) returns (ghost history: seq<World>)
    requires Apart(all) && ns in all && forall op :: op in ops ==> Among(op, all)
    modifies all, Held(all)
    ensures Apart(all) && Steps(ops, history) && history[|ops|] == Views(all)
    ensures forall i :: 0 <= i < |history| ==> ns in history[i]
    ensures (forall i :: 0 <= i < |history| ==> Visible(history[i][ns], key) == None)
            <==> (forall i :: 0 <= i < |ops| ==> !Brings(ops[i], history[i], ns, key))
  {
    hide Apart, Step, Held, Brings, Visible, Namespace.Now, Namespace.Held;
    var unmap := Operation.Unmap(ns, key);
    HeldAmong(unmap, all);
    ghost var before := Views(all);
    Perform(unmap, all);
    UnmapHides(unmap, before, Views(all));
    history := Run(ops, all);
    HiddenUntilBrought(ops, history, ns, key);
  }

  lemma UnmapHides(op: Operation, vs: World, ws: World)
    requires op.Unmap? && Step(op, vs, ws)
    ensures op.ns in ws && Visible(ws[op.ns], op.key) == None
  {}
}
