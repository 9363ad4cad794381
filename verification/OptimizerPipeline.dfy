/**
 The whole default pipeline (`pkg/compiler/optimize.go`): what a program observes does not change, and
 no redex of any pass is left.
 */
module OptimizerPipeline {
  import opened Ast
  import opened Optimizer
  import opened OptimizerGo
  import opened OptimizerSound

  // ---- meaning ----

  function RunEnv(h: Host, ps: seq<Pass>, env: Env): Env
    decreases |ps|
  {
    if ps == [] then env else RunEnv(h, ps[1..], OptEnv(h, ps[0], env))
  }

  function RunState(h: Host, ps: seq<Pass>, st: State): State
    decreases |ps|
  {
    if ps == [] then st else RunState(h, ps[1..], OptState(h, ps[0], st))
  }

  function RunOut(h: Host, ps: seq<Pass>, o: Outcome): Outcome
    decreases |ps|
  {
    if ps == [] then o else RunOut(h, ps[1..], OptOut(h, ps[0], o))
  }

  /** The host is one that every pass may assume, and no `go` of the program has a call that some pass lowers. */
  ghost predicate Premises(h: Host, ps: seq<Pass>, n: Node, env: Env, st: State) {
    NoKeywords(h) && forall p :: p in ps ==> Here(h, p, n, env, st)
  }

  /** A sequence of passes, on any tree in any environment and state, with any fuel. */
  lemma {:induction false} PipelineSound(h: Host, ps: seq<Pass>, n: Node, env: Env, st: State, fuel: nat)
    requires Premises(h, ps, n, env, st)
    ensures Eval(h, Run(h, ps, n), RunEnv(h, ps, env), RunState(h, ps, st), fuel)
            == RunOut(h, ps, Eval(h, n, env, st, fuel))
    decreases |ps|
  {
    hide Eval, Transform, OptEnv, OptState, OptOut, Here, SafeOut, NoKeywords;
    if ps != [] {
      var p := ps[0];
      HomNode(h, p, n, env, st, fuel);
      forall q | q in ps[1..]
        ensures Here(h, q, Transform(h, p, n), OptEnv(h, p, env), OptState(h, p, st))
      {
        assert q in ps;
        StillHere(h, q, p, n, env, st);
      }
      PipelineSound(h, ps[1..], Transform(h, p, n), OptEnv(h, p, env), OptState(h, p, st), fuel);
    }
  }

  lemma StillHere(h: Host, p: Pass, q: Pass, n: Node, env: Env, st: State)
    requires Here(h, p, n, env, st) && NoKeywords(h)
    ensures Here(h, p, Transform(h, q, n), OptEnv(h, q, env), OptState(h, q, st))
  {
    hide Ready, Transform, OptEnv, OptState, GoSafe, SafeEnv, SafeState, NoKeywords;
    GoSafeKept(h, p, q, n);
    SafeEnvKept(h, p, q, env);
    SafeStateKept(h, p, q, st);
  }

  // ---- what a program observes: everything but the bodies of functions ----

  const FUNCTION := Data(Opaque(-1))

  function Look(v: Value): Value
    decreases v
  {
    match v
    case Vec(items) => Vec(LookAll(items))
    case Closure(_, _, _, _) => FUNCTION
    case _ => v
  }

  function LookAll(vs: seq<Value>): (r: seq<Value>)
    ensures |r| == |vs|
    decreases vs
  {
    seq(|vs|, i requires 0 <= i < |vs| => assert (vs decreases to vs[i]); Look(vs[i]))
  }

  function LookEvent(e: Event): Event {
    match e
    case Called(prim, args) => Called(prim, LookAll(args))
    case Spawned(f, args) => Spawned(Look(f), LookAll(args))
  }

  function LookTrace(t: seq<Event>): seq<Event> { seq(|t|, i requires 0 <= i < |t| => LookEvent(t[i])) }

  function LookState(st: State): State { State(map v | v in st.roots :: Look(st.roots[v]), LookTrace(st.trace)) }

  /** The value or error that comes out, the effects so far in order, and the roots of the Vars. */
  function Observe(o: Outcome): Outcome {
    match o
    case Val(v, st) => Val(Look(v), LookState(st))
    case Threw(e, st) => Threw(Look(e), LookState(st))
    case Recurred(vs, st) => Recurred(LookAll(vs), LookState(st))
    case _ => o
  }

  lemma {:induction false} LookOpt(h: Host, p: Pass, v: Value)
    ensures Look(OptV(h, p, v)) == Look(v)
    decreases v
  {
    if v.Vec? {
      LookOptAll(h, p, v.items);
    }
  }

  lemma {:induction false} LookOptAll(h: Host, p: Pass, vs: seq<Value>)
    ensures LookAll(OptVs(h, p, vs)) == LookAll(vs)
    decreases vs
  {
    hide Look, OptV;
    forall i | 0 <= i < |vs|
      ensures Look(OptV(h, p, vs[i])) == Look(vs[i])
    {
      assert (vs decreases to vs[i]);
      LookOpt(h, p, vs[i]);
    }
  }

  lemma LookOptState(h: Host, p: Pass, st: State)
    ensures LookState(OptState(h, p, st)) == LookState(st)
  {
    hide Look, LookAll, OptV, OptVs;
    forall v: Value ensures Look(OptV(h, p, v)) == Look(v) { LookOpt(h, p, v); }
    forall vs: seq<Value> ensures LookAll(OptVs(h, p, vs)) == LookAll(vs) { LookOptAll(h, p, vs); }
  }

  lemma ObserveOpt(h: Host, p: Pass, o: Outcome)
    ensures Observe(OptOut(h, p, o)) == Observe(o)
  {
    hide Look, LookAll, OptV, OptVs, LookState, OptState;
    match o
    case Val(v, st) => LookOpt(h, p, v); LookOptState(h, p, st);
    case Threw(e, st) => LookOpt(h, p, e); LookOptState(h, p, st);
    case Recurred(vs, st) => LookOptAll(h, p, vs); LookOptState(h, p, st);
    case _ =>
  }

  lemma {:induction false} ObserveRun(h: Host, ps: seq<Pass>, o: Outcome)
    ensures Observe(RunOut(h, ps, o)) == Observe(o)
    decreases |ps|
  {
    hide Observe, OptOut;
    if ps != [] {
      ObserveOpt(h, ps[0], o);
      ObserveRun(h, ps[1..], OptOut(h, ps[0], o));
    }
  }

  /** Without any function in it, neither at the top nor in a vector. */
  predicate Plain(v: Value)
    decreases v
  {
    match v
    case Vec(items) => AllPlain(items)
    case Closure(_, _, _, _) => false
    case _ => true
  }

  predicate AllPlain(vs: seq<Value>)
    decreases vs
  {
    forall i :: 0 <= i < |vs| ==> assert (vs decreases to vs[i]); Plain(vs[i])
  }

  predicate PlainEvent(e: Event) {
    match e
    case Called(_, args) => AllPlain(args)
    case Spawned(f, args) => Plain(f) && AllPlain(args)
  }

  /** A world without functions compiled from the program yet: no Var has one, and none has been passed around. */
  predicate PlainWorld(st: State) {
    (forall v :: v in st.roots ==> Plain(st.roots[v])) && (forall i :: 0 <= i < |st.trace| ==> PlainEvent(st.trace[i]))
  }

  lemma {:induction false} PlainValue(h: Host, p: Pass, v: Value)
    requires Plain(v)
    ensures OptV(h, p, v) == v && SafeV(p, v)
    decreases v
  {
    if v.Vec? { PlainValues(h, p, v.items); }
  }

  lemma {:induction false} PlainValues(h: Host, p: Pass, vs: seq<Value>)
    requires AllPlain(vs)
    ensures OptVs(h, p, vs) == vs && SafeVs(p, vs)
    decreases vs
  {
    hide Plain, OptV, SafeV;
    forall i | 0 <= i < |vs|
      ensures OptV(h, p, vs[i]) == vs[i] && SafeV(p, vs[i])
    {
      assert (vs decreases to vs[i]);
      PlainValue(h, p, vs[i]);
    }
  }

  lemma PlainEvents(h: Host, p: Pass, e: Event)
    requires PlainEvent(e)
    ensures OptEvent(h, p, e) == e && SafeEvent(p, e)
  {
    hide Plain, OptV, SafeV, AllPlain, OptVs, SafeVs;
    match e
    case Called(_, args) => PlainValues(h, p, args);
    case Spawned(f, args) =>
      PlainValue(h, p, f);
      PlainValues(h, p, args);
  }

  /** Such a world is not changed by any pass. */
  lemma PlainWorldKept(h: Host, p: Pass, st: State)
    requires PlainWorld(st)
    ensures OptState(h, p, st) == st && SafeState(p, st)
  {
    hide Plain, OptV, SafeV, PlainEvent, OptEvent, SafeEvent;
    forall v | v in st.roots
      ensures OptV(h, p, st.roots[v]) == st.roots[v] && SafeV(p, st.roots[v])
    {
      PlainValue(h, p, st.roots[v]);
    }
    forall i | 0 <= i < |st.trace|
      ensures OptEvent(h, p, st.trace[i]) == st.trace[i] && SafeEvent(p, st.trace[i])
    {
      PlainEvents(h, p, st.trace[i]);
    }
    assert OptTrace(h, p, st.trace) == st.trace && OptRoots(h, p, st.roots) == st.roots;
  }

  /**
   A top-level form, in a world without compiled functions yet: same value or error, same effects in the same order,
   if no `go` in the form is about a call of a shape that some pass lowers.
   */
  lemma DefaultPipelinePreservesMeaning(h: Host, n: Node, st: State, fuel: nat)
    requires PlainWorld(st)
    requires forall p :: p in DefaultPasses(h.directLinking) ==> Blind(h, p) && GoSafe(p, n)
    ensures Observe(Eval(h, Run(h, DefaultPasses(h.directLinking), n), EmptyEnv, st, fuel))
            == Observe(Eval(h, n, EmptyEnv, st, fuel))
  {
    hide Eval, Observe, Run, RunOut, OptState, PlainWorld, GoSafe, SafeState;
    var ps := DefaultPasses(h.directLinking);
    forall p ensures OptState(h, p, st) == st && SafeState(p, st) { PlainWorldKept(h, p, st); }
    assert Blind(h, ps[0]);
    forall p | p in ps ensures Here(h, p, n, EmptyEnv, st) {}
    PipelineSound(h, ps, n, EmptyEnv, st, fuel);
    EmptyWorld(h, ps, st);
    ObserveRun(h, ps, Eval(h, n, EmptyEnv, st, fuel));
  }

  lemma {:induction false} EmptyWorld(h: Host, ps: seq<Pass>, st: State)
    requires forall p :: OptState(h, p, st) == st
    ensures RunEnv(h, ps, EmptyEnv) == EmptyEnv && RunState(h, ps, st) == st
    decreases |ps|
  {
    hide OptState;
    if ps != [] { EmptyWorld(h, ps[1..], st); }
  }

  // ---- `go` ----

  /**
   A `go` fails at run time, whatever its operands do, exactly if its call has a shape that some pass lowers;
   otherwise it is still a `go` of a call.
   */
  lemma GoFailsIfLowered(h: Host, ps: seq<Pass>, call: Node, env: Env, st: State, fuel: nat)
    requires call.Invoke? && NoKeywords(h)
    ensures var n := Run(h, ps, Go(call));
            && n.Go? && (n.call.Invoke? <==> forall p :: p in ps ==> !Lowers(p, call))
            && ((exists p :: p in ps && Lowers(p, call)) ==> Eval(h, n, env, st, fuel) == Threw(BAD_GO, st))
  {
    hide Run, Lowers, NoKeywords;
    RunGo(h, ps, call);
    PipelineKeepsItsCall(h, ps, call);
  }

  /** `(go (:k 1))`: the program starts a goroutine, the optimised program throws. */
  lemma GoKeywordExample(h: Host, st: State, fuel: nat)
    ensures var n := Go(Invoke(Const(Kw(0)), Nodes(Const(Num(1)), NoNodes)));
            && Eval(h, n, EmptyEnv, st, fuel)
                == Val(Data(Datum.Nil), st.(trace := st.trace + [Spawned(Data(Kw(0)), [Data(Num(1))])]))
            && Eval(h, Transform(h, LowerKeywordLookup, n), EmptyEnv, st, fuel) == Threw(BAD_GO, st)
  {
    var args := Nodes(Const(Num(1)), NoNodes);
    var call := Invoke(Const(Kw(0)), args);
    assert Transform(h, LowerKeywordLookup, Const(Kw(0))) == Const(Kw(0));
    assert TransformNodes(h, LowerKeywordLookup, args).Nodes?
        && TransformNodes(h, LowerKeywordLookup, args).tail.NoNodes?;
    assert Transform(h, LowerKeywordLookup, call).KeywordLookup?;
    assert Transform(h, LowerKeywordLookup, Go(call)) == Go(Transform(h, LowerKeywordLookup, call));
    EvalOne(h, args, EmptyEnv, st, fuel);
    assert Eval(h, Const(Num(1)), EmptyEnv, st, fuel) == Val(Data(Num(1)), st);
    assert Eval(h, Const(Kw(0)), EmptyEnv, st, fuel) == Val(Data(Kw(0)), st);
  }

  // ---- nothing left to rewrite ----

  predicate Clean(h: Host, p: Pass, n: Node)
    decreases n, 1
  {
    Rewrite(h, p, n) == n && CleanChildren(h, p, n)
  }

  predicate CleanChildren(h: Host, p: Pass, n: Node)
    decreases n, 0
  {
    match n
    case Strict(_, args) => CleanAll(h, p, args)
    case Invoke(fn, args) => Clean(h, p, fn) && CleanAll(h, p, args)
    case HostCall(target, _, _, args) => Clean(h, p, target) && CleanAll(h, p, args)
    case KeywordLookup(_, target, default) => Clean(h, p, target) && CleanAll(h, p, default)
    case Assoc(target, entries) => Clean(h, p, target) && CleanEntries(h, p, entries)
    case ReplaceLast(coll, value) => Clean(h, p, coll) && Clean(h, p, value)
    case If(test, thn, els) => Clean(h, p, test) && Clean(h, p, thn) && Clean(h, p, els)
    case Do(stmts, ret) => CleanAll(h, p, stmts) && Clean(h, p, ret)
    case Let(bs, body) => CleanBindings(h, p, bs) && Clean(h, p, body)
    case Loop(bs, body) => CleanBindings(h, p, bs) && Clean(h, p, body)
    case Recur(args) => CleanAll(h, p, args)
    case Fn(_, _, body) => Clean(h, p, body)
    case Def(_, init) => Clean(h, p, init)
    case SetBang(_, val) => Clean(h, p, val)
    case Throw(e) => Clean(h, p, e)
    case Try(body, kind, _, handler, finally) => Clean(h, p, body) && Clean(h, p, kind) && Clean(h, p, handler)
        && CleanAll(h, p, finally)
    case Go(call) => Clean(h, p, call)
    case _ => true
  }

  predicate CleanAll(h: Host, p: Pass, ns: Nodes)
    decreases ns, 0
  {
    ns.NoNodes? || (Clean(h, p, ns.head) && CleanAll(h, p, ns.tail))
  }

  predicate CleanEntries(h: Host, p: Pass, es: Entries)
    decreases es, 0
  {
    es.NoEntries? || (Clean(h, p, es.key) && Clean(h, p, es.val) && CleanEntries(h, p, es.rest))
  }

  predicate CleanBindings(h: Host, p: Pass, bs: Bindings)
    decreases bs, 0
  {
    bs.NoBindings? || (Clean(h, p, bs.init) && CleanBindings(h, p, bs.rest))
  }

  /** What a rewrite by `q` makes is made of parts that are clean for `p`, and is itself no redex. */
  lemma RewriteSettles(h: Host, p: Pass, q: Pass, n: Node)
    requires CleanChildren(h, p, n)
    ensures Rewrite(h, q, n) != n ==> Clean(h, p, Rewrite(h, q, n))
  {
    hide Foldable, Literals, IsDirect, Pairs;
    match q
    case FoldLiteralNumbers =>
    case FuseReplaceLast =>
      if Fuse(n) != n {
        assert Clean(h, p, n.args.head) && CleanAll(h, p, n.args.tail);
        assert CleanChildren(h, p, n.args.head);
        assert CleanAll(h, p, n.args.head.args);
      }
    case LowerKeywordLookup =>
    case LowerAssoc =>
      if LowerAssocCall(n) != n { CleanPairs(h, p, n.args.tail); }
  }

  lemma RewriteOnce(h: Host, p: Pass, n: Node)
    ensures Rewrite(h, p, Rewrite(h, p, n)) == Rewrite(h, p, n)
  {
    hide Foldable, Literals, IsDirect, Pairs, Count;
  }

  lemma {:induction false} CleanPairs(h: Host, p: Pass, ns: Nodes)
    requires CleanAll(h, p, ns)
    ensures CleanEntries(h, p, Pairs(ns))
  {
    hide Clean;
    if ns.Nodes? && ns.tail.Nodes? { CleanPairs(h, p, ns.tail.tail); }
  }

  // Only folding makes a constant, and no pass makes a call, so a later pass brings no redex back.

  lemma ConstKept(h: Host, q: Pass, n: Node)
    requires q != FoldLiteralNumbers
    ensures n.Const? || Transform(h, q, n).Const? ==> Transform(h, q, n) == n
    ensures n.VarRef? || Transform(h, q, n).VarRef? ==> Transform(h, q, n) == n
    ensures Transform(h, q, n).Invoke? ==> n.Invoke? && Transform(h, q, n) == TransformChildren(h, q, n)
  {
    hide Rewrite;
    RewriteKind(h, q, TransformChildren(h, q, n));
    SameKind(h, q, n);
  }

  lemma {:induction false} LiteralsKept(h: Host, q: Pass, ns: Nodes)
    requires q != FoldLiteralNumbers
    ensures Literals(TransformNodes(h, q, ns)) == Literals(ns)
  {
    hide Transform;
    if ns.Nodes? {
      ConstKept(h, q, ns.head);
      LiteralsKept(h, q, ns.tail);
    }
  }

  lemma NoNewRedex(h: Host, p: Pass, q: Pass, n: Node)
    requires q != FoldLiteralNumbers && Rewrite(h, p, n) == n
    ensures var m := TransformChildren(h, q, n);
            Rewrite(h, p, m) == m
  {
    hide Transform, Literals, Foldable, IsDirect, Count, One, Two, Pairs;
    match n
    case HostCall(target, _, _, args) =>
      ConstKept(h, q, target);
      LiteralsKept(h, q, args);
      FoldableKept(Transform(h, q, target), target, n.name, n.resolved);
    case Invoke(fn, args) =>
      ConstKept(h, q, fn);
      CountKept(h, q, args);
      if Two(args) {
        TwoHas(args);
        var first := args.head;
        ConstKept(h, q, first);
        if Transform(h, q, first).Invoke? {
          ConstKept(h, q, first.fn);
          CountKept(h, q, first.args);
        }
      }
    case _ =>
  }

  lemma TwoHas(ns: Nodes)
    ensures Two(ns) ==> ns.Nodes?
  {}

  lemma FoldableKept(t: Node, target: Node, name: string, resolved: bool)
    requires target.Const? || t.Const? ==> t == target
    ensures Foldable(t, name, resolved) == Foldable(target, name, resolved)
  {}

  /** A sweep leaves no redex of its own pass, and brings back none of a pass that ran before. */
  lemma {:induction false} SweepSettles(h: Host, p: Pass, q: Pass, n: Node)
    requires p == q || (q != FoldLiteralNumbers && Clean(h, p, n))
    ensures Clean(h, p, Transform(h, q, n))
    decreases n, 1
  {
    hide Rewrite, CleanChildren, TransformChildren;
    SweepChildren(h, p, q, n);
    var m := TransformChildren(h, q, n);
    RewriteSettles(h, p, q, m);
    if p == q { RewriteOnce(h, p, m); } else { NoNewRedex(h, p, q, n); }
  }

  lemma {:induction false} SweepChildren(h: Host, p: Pass, q: Pass, n: Node)
    requires p == q || (q != FoldLiteralNumbers && CleanChildren(h, p, n))
    ensures CleanChildren(h, p, TransformChildren(h, q, n))
    decreases n, 0
  {
    hide Clean, Transform;
    match n
    case Strict(_, args) => SweepAll(h, p, q, args);
    case Invoke(fn, args) => SweepSettles(h, p, q, fn); SweepAll(h, p, q, args);
    case HostCall(target, _, _, args) => SweepSettles(h, p, q, target); SweepAll(h, p, q, args);
    case KeywordLookup(_, target, default) => SweepSettles(h, p, q, target); SweepAll(h, p, q, default);
    case Assoc(target, entries) => SweepSettles(h, p, q, target); SweepEntries(h, p, q, entries);
    case Recur(args) => SweepAll(h, p, q, args);
    case Fn(_, _, body) => SweepSettles(h, p, q, body);
    case Def(_, init) => SweepSettles(h, p, q, init);
    case SetBang(_, val) => SweepSettles(h, p, q, val);
    case Throw(e) => SweepSettles(h, p, q, e);
    case Go(call) => SweepSettles(h, p, q, call);
    case _ => SweepBody(h, p, q, n);
  }

  lemma {:induction false} SweepBody(h: Host, p: Pass, q: Pass, n: Node)
    requires n.Try? || n.If? || n.ReplaceLast? || n.Do? || n.Let? || n.Loop? || n.Const? || n.Local? || n.VarRef?
    requires p == q || (q != FoldLiteralNumbers && CleanChildren(h, p, n))
    ensures CleanChildren(h, p, TransformChildren(h, q, n))
    decreases n, -1
  {
    hide Clean, Transform;
    match n
    case ReplaceLast(coll, value) => SweepSettles(h, p, q, coll); SweepSettles(h, p, q, value);
    case If(test, thn, els) => SweepSettles(h, p, q, test); SweepSettles(h, p, q, thn); SweepSettles(h, p, q, els);
    case Do(stmts, ret) => SweepAll(h, p, q, stmts); SweepSettles(h, p, q, ret);
    case Let(bs, body) => SweepBindings(h, p, q, bs); SweepSettles(h, p, q, body);
    case Loop(bs, body) => SweepBindings(h, p, q, bs); SweepSettles(h, p, q, body);
    case Try(body, kind, _, handler, finally) =>
      SweepSettles(h, p, q, body);
      SweepSettles(h, p, q, kind);
      SweepSettles(h, p, q, handler);
      SweepAll(h, p, q, finally);
    case _ =>
  }

  lemma {:induction false} SweepAll(h: Host, p: Pass, q: Pass, ns: Nodes)
    requires p == q || (q != FoldLiteralNumbers && CleanAll(h, p, ns))
    ensures CleanAll(h, p, TransformNodes(h, q, ns))
    decreases ns, 0
  {
    hide Clean, Transform;
    if ns.Nodes? { SweepSettles(h, p, q, ns.head); SweepAll(h, p, q, ns.tail); }
  }

  lemma {:induction false} SweepEntries(h: Host, p: Pass, q: Pass, es: Entries)
    requires p == q || (q != FoldLiteralNumbers && CleanEntries(h, p, es))
    ensures CleanEntries(h, p, TransformEntries(h, q, es))
    decreases es, 0
  {
    hide Clean, Transform;
    if es.Entry? { SweepSettles(h, p, q, es.key); SweepSettles(h, p, q, es.val); SweepEntries(h, p, q, es.rest); }
  }

  lemma {:induction false} SweepBindings(h: Host, p: Pass, q: Pass, bs: Bindings)
    requires p == q || (q != FoldLiteralNumbers && CleanBindings(h, p, bs))
    ensures CleanBindings(h, p, TransformBindings(h, q, bs))
    decreases bs, 0
  {
    hide Clean, Transform;
    if bs.Binding? { SweepSettles(h, p, q, bs.init); SweepBindings(h, p, q, bs.rest); }
  }

  /** The default pipeline, with folding first, leaves no redex of any of its passes. */
  lemma DefaultPipelineSettles(h: Host, n: Node, p: Pass)
    requires p in DefaultPasses(h.directLinking)
    ensures Clean(h, p, Run(h, DefaultPasses(h.directLinking), n))
  {
    hide Transform, Clean;
    var ps := DefaultPasses(h.directLinking);
    var i :| 0 <= i < |ps| && ps[i] == p;
    RunSettles(h, ps, p, i, n);
  }

  lemma {:induction false} RunSettles(h: Host, ps: seq<Pass>, p: Pass, i: nat, n: Node)
    requires i < |ps| && ps[i] == p
    requires forall j :: 0 < j < |ps| ==> ps[j] != FoldLiteralNumbers
    ensures Clean(h, p, Run(h, ps, n))
    decreases |ps|
  {
    hide Transform, Clean;
    var next := Transform(h, ps[0], n);
    if i == 0 {
      SweepSettles(h, p, p, n);
      RunKeeps(h, ps[1..], p, next);
    } else {
      RunSettles(h, ps[1..], p, i - 1, next);
    }
  }

  lemma {:induction false} RunKeeps(h: Host, ps: seq<Pass>, p: Pass, n: Node)
    requires FoldLiteralNumbers !in ps && Clean(h, p, n)
    ensures Clean(h, p, Run(h, ps, n))
    decreases |ps|
  {
    hide Transform, Clean;
    if ps != [] {
      SweepSettles(h, p, ps[0], n);
      RunKeeps(h, ps[1..], p, Transform(h, ps[0], n));
    }
  }
}
