/**
 The passes preserve meaning: an optimised tree, run in an optimised world, has the same outcome and
 the same events in the same order; and one sweep leaves nothing for the pass to rewrite.
 */
module OptimizerSound {
  import opened Objects
  import opened Ast
  import opened Optimizer
  import opened OptimizerGo

  /** Passes that assume direct linking run only under it. */
  predicate Allowed(h: Host, p: Pass) { p.FuseReplaceLast? || p.LowerAssoc? ==> h.directLinking }

  // ---- each rewrite of a single node ----

  lemma RewriteSound(h: Host, p: Pass, n: Node, env: Env, st: State, fuel: nat)
    requires Allowed(h, p)
    ensures Eval(h, Rewrite(h, p, n), env, st, fuel) == Eval(h, n, env, st, fuel)
  {
    hide Eval, Fold, Fuse, LowerKeyword, LowerAssocCall;
    FoldSound(h, n, env, st, fuel);
    KeywordSound(h, n, env, st, fuel);
    if h.directLinking {
      FuseSound(h, n, env, st, fuel);
      AssocSound(h, n, env, st, fuel);
    }
  }

  lemma {:induction false} LiteralValues(h: Host, ns: Nodes, env: Env, st: State, fuel: nat)
    requires Literals(ns).Some?
    ensures var r := EvalAll(h, ns, env, st, fuel);
            r.Vals? && r.st == st && AllData(r.vs) == Literals(ns)
  {
    if ns.Nodes? {
      assert Eval(h, ns.head, env, st, fuel) == Val(Data(ns.head.datum), st);
      LiteralValues(h, ns.tail, env, st, fuel);
      var vs := EvalAll(h, ns, env, st, fuel).vs;
      assert vs[1..] == EvalAll(h, ns.tail, env, st, fuel).vs;
    }
  }

  lemma FoldSound(h: Host, n: Node, env: Env, st: State, fuel: nat)
    ensures Eval(h, Fold(h, n), env, st, fuel) == Eval(h, n, env, st, fuel)
  {
    hide Foldable, EvalAll, Literals, AllData;
    if n.HostCall? && Foldable(n.target, n.name, n.resolved) && Literals(n.args).Some? {
      LiteralValues(h, n.args, env, st, fuel);
      FoldableIsResolved(n.target, n.name, n.resolved);
    }
  }

  lemma FoldableIsResolved(target: Node, name: string, resolved: bool)
    ensures Foldable(target, name, resolved) ==> resolved
  {}

  lemma {:induction false} EvalOne(h: Host, ns: Nodes, env: Env, st: State, fuel: nat)
    requires One(ns)
    ensures EvalAll(h, ns, env, st, fuel)
         == match Eval(h, ns.head, env, st, fuel)
            case Val(v, st1) => Vals([v], st1)
            case o => Stop(o)
  {
    assert EvalAll(h, ns.tail, env, st, fuel) == Vals([], st);
  }

  lemma EvalTwo(h: Host, ns: Nodes, env: Env, st: State, fuel: nat)
    requires Two(ns)
    ensures EvalAll(h, ns, env, st, fuel)
         == match Eval(h, ns.head, env, st, fuel)
            case Val(v, st1) =>
              (match Eval(h, ns.tail.head, env, st1, fuel)
               case Val(w, st2) => Vals([v, w], st2)
               case o => Stop(o))
            case o => Stop(o)
  {
    hide Eval;
    var r := Eval(h, ns.head, env, st, fuel);
    if r.Val? {
      EvalOne(h, ns.tail, env, r.st, fuel);
    }
  }

  lemma KeywordSound(h: Host, n: Node, env: Env, st: State, fuel: nat)
    ensures Eval(h, LowerKeyword(n), env, st, fuel) == Eval(h, n, env, st, fuel)
  {
    hide EvalAll, Call;
    if n.Invoke? && n.fn.Const? && n.fn.datum.Kw? {
      var f := Data(n.fn.datum);
      assert Eval(h, n.fn, env, st, fuel) == Val(f, st);
      if One(n.args) {
        EvalOne(h, n.args, env, st, fuel);
        forall v: Value ensures [f] + [v] == [f, v] {}
      } else if Two(n.args) {
        EvalTwo(h, n.args, env, st, fuel);
        forall v: Value, w: Value ensures [f] + [v, w] == [f, v, w] {}
      }
    }
  }

  lemma LinkedCall(h: Host, n: Node, name: string, env: Env, st: State, fuel: nat)
    requires h.directLinking && IsCoreCall(n, name) && (name == "conj" || name == "pop" || name == "assoc")
    ensures Eval(h, n, env, st, fuel)
         == match EvalAll(h, n.args, env, st, fuel)
            case Stop(o) => o
            case Vals(vs, st2) => CallCore(h, name, vs, st2)
  {
    hide EvalAll, CallCore;
    assert Eval(h, n.fn, env, st, fuel) == Val(PrimFn(Core(name)), st);
  }

  lemma FuseSound(h: Host, n: Node, env: Env, st: State, fuel: nat)
    requires h.directLinking
    ensures Eval(h, Fuse(n), env, st, fuel) == Eval(h, n, env, st, fuel)
  {
    hide Eval, EvalAll, Call, IsDirect;
    if IsCoreCall(n, "conj") && Two(n.args) && IsCoreCall(n.args.head, "pop") && One(n.args.head.args) {
      var pop, coll, value := n.args.head, n.args.head.args.head, n.args.tail.head;
      LinkedCall(h, n, "conj", env, st, fuel);
      LinkedCall(h, pop, "pop", env, st, fuel);
      EvalTwo(h, n.args, env, st, fuel);
      EvalOne(h, pop.args, env, st, fuel);
      EvalReplaceLast(h, coll, value, env, st, fuel);
      var c := Eval(h, coll, env, st, fuel);
      if c.Val? { ReplaceIsPopConj(h, c.v); }
    }
  }

  lemma EvalReplaceLast(h: Host, coll: Node, value: Node, env: Env, st: State, fuel: nat)
    ensures Eval(h, ReplaceLast(coll, value), env, st, fuel)
         == match Eval(h, coll, env, st, fuel)
            case Val(c, st1) =>
              (match PrepareReplaceLast(h, c, st1)
               case Val(plan, st2) =>
                 (match Eval(h, value, env, st2, fuel)
                  case Val(x, st3) => FinishReplaceLast(h, c, plan, x, st3)
                  case o => o)
               case o => o)
            case o => o
  {
    hide PrepareReplaceLast, FinishReplaceLast;
  }

  /** Replacing the last item is dropping it and appending; nothing is appended to what cannot be popped. */
  lemma ReplaceIsPopConj(h: Host, c: Value)
    ensures forall st :: PrepareReplaceLast(h, c, st).Val? <==> PopValue(h, c, st).Val?
    ensures forall st :: !PopValue(h, c, st).Val? ==> PrepareReplaceLast(h, c, st) == PopValue(h, c, st)
    ensures forall st :: PopValue(h, c, st).Val? ==> PrepareReplaceLast(h, c, st).st == PopValue(h, c, st).st
    ensures forall st, x, st3 :: PopValue(h, c, st).Val? ==>
              FinishReplaceLast(h, c, PrepareReplaceLast(h, c, st).v, x, st3)
                == ConjValue(h, PopValue(h, c, st).v, x, st3)
  {
    if c.Vec? && c.items != [] {
      var n := |c.items|;
      forall x: Value ensures c.items[n - 1 := x] == c.items[..n - 1] + [x] {}
    }
  }

  lemma {:induction false} PairsSound(h: Host, ns: Nodes, env: Env, st: State, fuel: nat)
    requires Count(ns) % 2 == 0
    ensures EvalEntries(h, Pairs(ns), env, st, fuel) == EvalAll(h, ns, env, st, fuel)
    ensures EvalAll(h, ns, env, st, fuel).Vals? ==> |EvalAll(h, ns, env, st, fuel).vs| == Count(ns)
  {
    hide Eval;
    if ns.Nodes? {
      var a := Eval(h, ns.head, env, st, fuel);
      if a.Val? {
        var b := Eval(h, ns.tail.head, env, a.st, fuel);
        if b.Val? {
          PairsSound(h, ns.tail.tail, env, b.st, fuel);
          var r := EvalAll(h, ns.tail.tail, env, b.st, fuel);
          if r.Vals? { assert [a.v] + ([b.v] + r.vs) == [a.v, b.v] + r.vs; }
        }
      }
    }
  }

  lemma AssocSound(h: Host, n: Node, env: Env, st: State, fuel: nat)
    requires h.directLinking
    ensures Eval(h, LowerAssocCall(n), env, st, fuel) == Eval(h, n, env, st, fuel)
  {
    hide Eval, EvalEntries, AssocAll, IsDirect, Pairs;
    if IsCoreCall(n, "assoc") && Count(n.args) >= 3 && Count(n.args) % 2 == 1 {
      LinkedCall(h, n, "assoc", env, st, fuel);
      EvalAssoc(h, n.args.head, Pairs(n.args.tail), env, st, fuel);
      var m := Eval(h, n.args.head, env, st, fuel);
      if m.Val? {
        PairsSound(h, n.args.tail, env, m.st, fuel);
        var r := EvalAll(h, n.args.tail, env, m.st, fuel);
        if r.Vals? { assert ([m.v] + r.vs)[1..] == r.vs; }
      }
    }
  }

  lemma EvalAssoc(h: Host, target: Node, entries: Entries, env: Env, st: State, fuel: nat)
    ensures Eval(h, Assoc(target, entries), env, st, fuel)
         == match Eval(h, target, env, st, fuel)
            case Val(m, st1) =>
              (match EvalEntries(h, entries, env, st1, fuel)
               case Stop(o) => o
               case Vals(kvs, st2) => AssocAll(h, m, kvs, st2))
            case o => o
  {
    hide EvalEntries, AssocAll;
  }

  // ---- values, environments and states ----

  /** The host treats function bodies as opaque; pure Numbers methods return neither their own object nor a keyword. */
  ghost predicate Blind(h: Host, p: Pass) {
    && (forall prim, args, t :: SafeVs(p, args) && SafeTrace(p, t) ==>
          h.reply(prim, OptVs(h, p, args), OptTrace(h, p, t)) == OptReply(h, p, h.reply(prim, args, t)))
    && (forall prim, args, t :: SafeVs(p, args) && SafeTrace(p, t) ==> SafeReply(p, h.reply(prim, args, t)))
    && (forall e, c :: h.catches(OptV(h, p, e), OptV(h, p, c)) == h.catches(e, c))
    && (forall name, ds :: h.pure(name, ds) != Returns(NUMBERS))
    && NoKeywords(h)
  }

  predicate SafeReply(p: Pass, r: Reply) { if r.Returned? then SafeV(p, r.v) else SafeV(p, r.error) }

  ghost predicate Ready(h: Host, p: Pass) { Allowed(h, p) && Blind(h, p) }

  lemma OptConcat(h: Host, p: Pass, a: seq<Value>, b: seq<Value>)
    ensures OptVs(h, p, a + b) == OptVs(h, p, a) + OptVs(h, p, b)
    ensures SafeVs(p, a + b) <==> SafeVs(p, a) && SafeVs(p, b)
  {
    hide OptV, SafeV;
    if SafeVs(p, a + b) {
      forall i | 0 <= i < |a| ensures SafeV(p, a[i]) { assert (a + b)[i] == a[i]; }
      forall i | 0 <= i < |b| ensures SafeV(p, b[i]) { assert (a + b)[|a| + i] == b[i]; }
    }
  }

  lemma OptOne(h: Host, p: Pass, v: Value)
    ensures OptVs(h, p, [v]) == [OptV(h, p, v)] && (SafeVs(p, [v]) <==> SafeV(p, v))
  {
    hide OptV, SafeV;
    assert SafeVs(p, [v]) ==> SafeV(p, [v][0]);
  }

  lemma OptPair(h: Host, p: Pass, v: Value, w: Value)
    ensures OptVs(h, p, [v, w]) == [OptV(h, p, v), OptV(h, p, w)]
    ensures SafeVs(p, [v, w]) <==> SafeV(p, v) && SafeV(p, w)
  {
    hide OptVs, OptV, SafeVs, SafeV;
    OptOne(h, p, v);
    OptOne(h, p, w);
    OptConcat(h, p, [v], [w]);
    assert [v, w] == [v] + [w];
  }

  lemma OptTriple(h: Host, p: Pass, v: Value, w: Value, x: Value)
    ensures OptVs(h, p, [v, w, x]) == [OptV(h, p, v), OptV(h, p, w), OptV(h, p, x)]
    ensures SafeVs(p, [v, w, x]) <==> SafeV(p, v) && SafeV(p, w) && SafeV(p, x)
  {
    hide OptVs, OptV, SafeVs, SafeV;
    OptPair(h, p, v, w);
    OptOne(h, p, x);
    OptConcat(h, p, [v, w], [x]);
    assert [v, w, x] == [v, w] + [x];
  }

  lemma OptSlice(h: Host, p: Pass, vs: seq<Value>, i: nat)
    requires i <= |vs|
    ensures OptVs(h, p, vs)[i..] == OptVs(h, p, vs[i..]) && OptVs(h, p, vs)[..i] == OptVs(h, p, vs[..i])
    ensures SafeVs(p, vs) ==> SafeVs(p, vs[i..]) && SafeVs(p, vs[..i])
  {
    assert vs == vs[..i] + vs[i..];
    OptConcat(h, p, vs[..i], vs[i..]);
  }

  lemma {:induction false} HomFind(h: Host, p: Pass, env: Env, s: Sym)
    ensures Find(OptEnv(h, p, env), s) == if Find(env, s).None? then None else Some(OptV(h, p, Find(env, s).value))
    ensures SafeEnv(p, env) && Find(env, s).Some? ==> SafeV(p, Find(env, s).value)
  {
    if env.Bound? { HomFind(h, p, env.rest, s); }
  }

  lemma {:induction false} HomBind(h: Host, p: Pass, env: Env, syms: seq<Sym>, vs: seq<Value>)
    requires SafeEnv(p, env) && SafeVs(p, vs)
    ensures OptEnv(h, p, BindAll(env, syms, vs)) == BindAll(OptEnv(h, p, env), syms, OptVs(h, p, vs))
    ensures SafeEnv(p, BindAll(env, syms, vs))
    decreases |syms|
  {
    if syms != [] && vs != [] {
      OptSlice(h, p, vs, 1);
      var inner := Bound(syms[0], vs[0], env);
      HomBind(h, p, inner, syms[1..], vs[1..]);
    }
  }

  lemma HomTrace(h: Host, p: Pass, t: seq<Event>, e: Event)
    requires SafeTrace(p, t) && SafeEvent(p, e)
    ensures OptTrace(h, p, t + [e]) == OptTrace(h, p, t) + [OptEvent(h, p, e)] && SafeTrace(p, t + [e])
  {
    hide SafeEvent, OptEvent;
  }

  // ---- host calls ----

  ghost predicate SameOut(h: Host, p: Pass, optimised: Outcome, original: Outcome) {
    optimised == OptOut(h, p, original) && SafeOut(p, original)
  }

  ghost predicate SameOuts(h: Host, p: Pass, optimised: Outcomes, original: Outcomes) {
    optimised == OptOuts(h, p, original) && SafeOuts(p, original)
  }

  lemma HomCall(h: Host, p: Pass, prim: Primitive, args: seq<Value>, st: State)
    requires Ready(h, p) && SafeVs(p, args) && SafeState(p, st)
    ensures SameOut(h, p, Call(h, prim, OptVs(h, p, args), OptState(h, p, st)), Call(h, prim, args, st))
  {
    hide SafeTrace, SafeVs, OptVs, OptTrace;
    var e := Called(prim, args);
    HomTrace(h, p, st.trace, e);
    SafeCalled(h, p, prim, args);
  }

  lemma SafeCalled(h: Host, p: Pass, prim: Primitive, args: seq<Value>)
    requires SafeVs(p, args)
    ensures SafeEvent(p, Called(prim, args))
  {}

  lemma HomPop(h: Host, p: Pass, c: Value, st: State)
    requires Ready(h, p) && SafeV(p, c) && SafeState(p, st)
    ensures SameOut(h, p, PopValue(h, OptV(h, p, c), OptState(h, p, st)), PopValue(h, c, st))
  {
    hide Call, SafeState, OptState, Ready;
    if c.Vec? {
      if c.items != [] {
        OptSlice(h, p, c.items, |c.items| - 1);
      }
    } else {
      OptOne(h, p, c);
      HomCall(h, p, Pop, [c], st);
      assert !OptV(h, p, c).Vec?;
    }
  }

  lemma HomConj(h: Host, p: Pass, c: Value, x: Value, st: State)
    requires Ready(h, p) && SafeV(p, c) && SafeV(p, x) && SafeState(p, st)
    ensures SameOut(h, p, ConjValue(h, OptV(h, p, c), OptV(h, p, x), OptState(h, p, st)), ConjValue(h, c, x, st))
  {
    hide Call, SafeState, OptState, Ready;
    OptPair(h, p, c, x);
    if c.Vec? {
      OptOne(h, p, x);
      OptConcat(h, p, c.items, [x]);
    } else {
      HomCall(h, p, Conj, [c, x], st);
      assert !OptV(h, p, c).Vec?;
    }
  }

  lemma {:induction false} HomAssoc(h: Host, p: Pass, m: Value, kvs: seq<Value>, st: State)
    requires Ready(h, p) && SafeV(p, m) && SafeVs(p, kvs) && SafeState(p, st)
    ensures SameOut(h, p, AssocAll(h, OptV(h, p, m), OptVs(h, p, kvs), OptState(h, p, st)), AssocAll(h, m, kvs, st))
    decreases |kvs|
  {
    hide Call, SafeState, OptState, Ready;
    if |kvs| >= 2 {
      OptTriple(h, p, m, kvs[0], kvs[1]);
      HomCall(h, p, AssocOne, [m, kvs[0], kvs[1]], st);
      OptSlice(h, p, kvs, 2);
      var r := Call(h, AssocOne, [m, kvs[0], kvs[1]], st);
      if r.Val? { HomAssoc(h, p, r.v, kvs[2..], r.st); }
    }
  }

  lemma HomCore(h: Host, p: Pass, name: string, args: seq<Value>, st: State)
    requires Ready(h, p) && SafeVs(p, args) && SafeState(p, st)
    ensures SameOut(h, p, CallCore(h, name, OptVs(h, p, args), OptState(h, p, st)), CallCore(h, name, args, st))
  {
    hide Call, SafeState, OptState, Ready, AssocAll, PopValue, ConjValue, SameOut;
    HomCall(h, p, Core(name), args, st);
    if |args| >= 1 {
      HomPop(h, p, args[0], st);
      OptSlice(h, p, args, 1);
      HomAssoc(h, p, args[0], args[1..], st);
      if |args| >= 2 { HomConj(h, p, args[0], args[1], st); }
    }
  }

  lemma {:induction false} HomData(h: Host, p: Pass, vs: seq<Value>)
    ensures AllData(OptVs(h, p, vs)) == AllData(vs)
  {
    if vs != [] {
      OptSlice(h, p, vs, 1);
      HomData(h, p, vs[1..]);
    }
  }

  lemma HomPure(h: Host, p: Pass, name: string, args: seq<Value>, st: State)
    requires SafeState(p, st)
    ensures SameOut(h, p, CallPure(h, name, OptVs(h, p, args), OptState(h, p, st)), CallPure(h, name, args, st))
  {
    hide AllData, SafeState, OptState, OptVs;
    HomData(h, p, args);
  }

  // ---- the two runs side by side ----

  ghost predicate Here(h: Host, p: Pass, n: Node, env: Env, st: State) {
    Ready(h, p) && GoSafe(p, n) && SafeEnv(p, env) && SafeState(p, st)
  }

  /** Running `m` in the optimised world does what running `n` does in the original one. */
  ghost predicate Same(h: Host, p: Pass, n: Node, m: Node, env: Env, st: State, fuel: nat) {
    SameOut(h, p, Eval(h, m, OptEnv(h, p, env), OptState(h, p, st), fuel), Eval(h, n, env, st, fuel))
  }

  lemma {:induction false} HomNode(h: Host, p: Pass, n: Node, env: Env, st: State, fuel: nat)
    requires Here(h, p, n, env, st)
    ensures Same(h, p, n, Transform(h, p, n), env, st, fuel)
    decreases fuel, 1, n, 5
  {
    HomChildren(h, p, n, env, st, fuel);
    SweepNode(h, p, n, env, st, fuel);
  }

  lemma SweepNode(h: Host, p: Pass, n: Node, env: Env, st: State, fuel: nat)
    requires Ready(h, p) && Same(h, p, n, TransformChildren(h, p, n), env, st, fuel)
    ensures Same(h, p, n, Transform(h, p, n), env, st, fuel)
  {
    hide Eval, TransformChildren, Rewrite, Blind;
    RewriteSound(h, p, TransformChildren(h, p, n), OptEnv(h, p, env), OptState(h, p, st), fuel);
  }

  lemma {:induction false} HomChildren(h: Host, p: Pass, n: Node, env: Env, st: State, fuel: nat)
    requires Here(h, p, n, env, st)
    ensures Same(h, p, n, TransformChildren(h, p, n), env, st, fuel)
    decreases fuel, 1, n, 4
  {
    hide *;
    match n
    case Strict(_, _) => HomStrict(h, p, n, env, st, fuel);
    case Invoke(_, _) => HomInvoke(h, p, n, env, st, fuel);
    case HostCall(_, _, _, _) => HomHostCall(h, p, n, env, st, fuel);
    case KeywordLookup(_, _, _) => HomKeyword(h, p, n, env, st, fuel);
    case Assoc(_, _) => HomAssocNode(h, p, n, env, st, fuel);
    case ReplaceLast(_, _) => HomReplace(h, p, n, env, st, fuel);
    case If(_, _, _) => HomIf(h, p, n, env, st, fuel);
    case Do(_, _) => HomDo(h, p, n, env, st, fuel);
    case Let(_, _) => HomLet(h, p, n, env, st, fuel);
    case Loop(_, _) => HomLoop(h, p, n, env, st, fuel);
    case Recur(_) => HomRecur(h, p, n, env, st, fuel);
    case Def(_, _) => HomAssign(h, p, n, env, st, fuel);
    case SetBang(_, _) => HomAssign(h, p, n, env, st, fuel);
    case Throw(_) => HomThrow(h, p, n, env, st, fuel);
    case Try(_, _, _, _, _) => HomTry(h, p, n, env, st, fuel);
    case Go(_) => HomGo(h, p, n, env, st, fuel);
    case _ => HomLeaf(h, p, n, env, st, fuel);
  }

  lemma HomLeaf(h: Host, p: Pass, n: Node, env: Env, st: State, fuel: nat)
    requires Here(h, p, n, env, st) && (n.Const? || n.Local? || n.VarRef? || n.Fn?)
    ensures Same(h, p, n, TransformChildren(h, p, n), env, st, fuel)
  {
    hide Blind, GoSafe, Transform, SafeEnv, OptEnv;
    if n.Local? { HomFind(h, p, env, n.sym); }
    if n.Fn? { GoSafeFn(h, p, n); }
  }

  lemma GoSafeFn(h: Host, p: Pass, n: Node)
    requires n.Fn? && GoSafe(p, n)
    ensures GoSafe(p, n.body)
  {}

  lemma {:induction false} HomAll(h: Host, p: Pass, ns: Nodes, env: Env, st: State, fuel: nat)
    requires Ready(h, p) && GoSafeAll(p, ns) && SafeEnv(p, env) && SafeState(p, st)
    ensures SameOuts(h, p, EvalAll(h, TransformNodes(h, p, ns), OptEnv(h, p, env), OptState(h, p, st), fuel),
            EvalAll(h, ns, env, st, fuel))
    decreases fuel, 1, ns, 3
  {
    hide Ready, SafeEnv, SafeState, OptEnv, OptState, OptV, OptVs, SafeV, SafeVs, Transform, Eval, GoSafe;
    if ns.Nodes? {
      HomNode(h, p, ns.head, env, st, fuel);
      var r := Eval(h, ns.head, env, st, fuel);
      if r.Val? {
        HomAll(h, p, ns.tail, env, r.st, fuel);
        var rest := EvalAll(h, ns.tail, env, r.st, fuel);
        if rest.Vals? { OptCons(h, p, r.v, rest.vs); }
      }
    } else {
      OptNone(h, p);
    }
  }

  lemma OptNone(h: Host, p: Pass)
    ensures OptVs(h, p, []) == [] && SafeVs(p, [])
  {}

  lemma OptCons(h: Host, p: Pass, v: Value, vs: seq<Value>)
    ensures OptVs(h, p, [v] + vs) == [OptV(h, p, v)] + OptVs(h, p, vs)
    ensures SafeVs(p, [v] + vs) <==> SafeV(p, v) && SafeVs(p, vs)
  {
    hide OptVs, SafeVs, OptV, SafeV;
    OptOne(h, p, v);
    OptConcat(h, p, [v], vs);
  }

  lemma {:induction false} HomEntries(h: Host, p: Pass, es: Entries, env: Env, st: State, fuel: nat)
    requires Ready(h, p) && GoSafeEntries(p, es) && SafeEnv(p, env) && SafeState(p, st)
    ensures SameOuts(h, p, EvalEntries(h, TransformEntries(h, p, es), OptEnv(h, p, env), OptState(h, p, st), fuel),
            EvalEntries(h, es, env, st, fuel))
    decreases fuel, 1, es, 3
  {
    hide Ready, SafeEnv, SafeState, OptEnv, OptState, OptV, OptVs, SafeV, SafeVs, Transform, Eval, GoSafe;
    if es.Entry? {
      HomNode(h, p, es.key, env, st, fuel);
      var r := Eval(h, es.key, env, st, fuel);
      if r.Val? {
        HomNode(h, p, es.val, env, r.st, fuel);
        var q := Eval(h, es.val, env, r.st, fuel);
        if q.Val? {
          HomEntries(h, p, es.rest, env, q.st, fuel);
          var rest := EvalEntries(h, es.rest, env, q.st, fuel);
          if rest.Vals? {
            OptPair(h, p, r.v, q.v);
            OptConcat(h, p, [r.v, q.v], rest.vs);
          }
        }
      }
    } else {
      OptNone(h, p);
    }
  }

  lemma {:induction false} HomBindings(h: Host, p: Pass, bs: Bindings, env: Env, st: State, fuel: nat)
    requires Ready(h, p) && GoSafeBindings(p, bs) && SafeEnv(p, env) && SafeState(p, st)
    ensures SameOuts(h, p, EvalBindings(h, TransformBindings(h, p, bs), OptEnv(h, p, env), OptState(h, p, st),
            fuel), EvalBindings(h, bs, env, st, fuel))
    ensures Syms(TransformBindings(h, p, bs)) == Syms(bs)
    decreases fuel, 1, bs, 3
  {
    hide Ready, SafeEnv, SafeState, OptEnv, OptState, OptV, OptVs, SafeV, SafeVs, Transform, Eval, GoSafe;
    if bs.Binding? {
      HomNode(h, p, bs.init, env, st, fuel);
      SameSyms(h, p, bs);
      var r := Eval(h, bs.init, env, st, fuel);
      if r.Val? {
        OptBound(h, p, bs.sym, r.v, env);
        HomBindings(h, p, bs.rest, Bound(bs.sym, r.v, env), r.st, fuel);
        var rest := EvalBindings(h, bs.rest, Bound(bs.sym, r.v, env), r.st, fuel);
        if rest.Vals? { OptCons(h, p, r.v, rest.vs); }
      }
    } else {
      OptNone(h, p);
    }
  }

  lemma {:induction false} SameSyms(h: Host, p: Pass, bs: Bindings)
    ensures Syms(TransformBindings(h, p, bs)) == Syms(bs)
  {
    hide Transform;
    if bs.Binding? { SameSyms(h, p, bs.rest); }
  }

  lemma OptBound(h: Host, p: Pass, s: Sym, v: Value, env: Env)
    ensures OptEnv(h, p, Bound(s, v, env)) == Bound(s, OptV(h, p, v), OptEnv(h, p, env))
    ensures SafeEnv(p, Bound(s, v, env)) <==> SafeV(p, v) && SafeEnv(p, env)
  {
    hide OptV, SafeV;
  }

  lemma {:induction false} HomStrict(h: Host, p: Pass, n: Node, env: Env, st: State, fuel: nat)
    requires Here(h, p, n, env, st) && n.Strict?
    ensures Same(h, p, n, TransformChildren(h, p, n), env, st, fuel)
    decreases fuel, 1, n, 2
  {
    hide Ready, SafeEnv, SafeState, OptEnv, OptState, OptV, OptVs, SafeV, SafeVs, Transform, EvalAll, Call;
    HomAll(h, p, n.args, env, st, fuel);
    var r := EvalAll(h, n.args, env, st, fuel);
    if r.Vals? { HomCall(h, p, Operator(n.op), r.vs, r.st); }
  }

  lemma {:induction false} HomInvoke(h: Host, p: Pass, n: Node, env: Env, st: State, fuel: nat)
    requires Here(h, p, n, env, st) && n.Invoke?
    ensures Same(h, p, n, TransformChildren(h, p, n), env, st, fuel)
    decreases fuel, 1, n, 2
  {
    hide Ready, SafeEnv, SafeState, OptEnv, OptState, OptV, OptVs, SafeV, SafeVs, Transform, EvalAll, Apply;
    HomNode(h, p, n.fn, env, st, fuel);
    var f := Eval(h, n.fn, env, st, fuel);
    if f.Val? {
      HomAll(h, p, n.args, env, f.st, fuel);
      var r := EvalAll(h, n.args, env, f.st, fuel);
      if r.Vals? { HomApply(h, p, f.v, r.vs, r.st, fuel); }
    }
  }

  lemma {:induction false} HomApply(h: Host, p: Pass, f: Value, args: seq<Value>, st: State, fuel: nat)
    requires Ready(h, p) && SafeV(p, f) && SafeVs(p, args) && SafeState(p, st)
    ensures SameOut(h, p, Apply(h, OptV(h, p, f), OptVs(h, p, args), OptState(h, p, st), fuel),
            Apply(h, f, args, st, fuel))
    decreases fuel, 0
  {
    hide Ready, SafeEnv, SafeState, OptEnv, OptState, OptVs, SafeVs, Transform, Call, CallCore, Rounds, GoSafe;
    match f
    case Closure(self, params, body, env) =>
      OptBound(h, p, self, f, env);
      if |args| == |params| && fuel > 0 {
        HomRounds(h, p, params, body, Bound(self, f, env), args, st, fuel - 1);
      }
    case PrimFn(prim) =>
      if prim.Core? { HomCore(h, p, prim.name, args, st); } else { HomCall(h, p, prim, args, st); }
    case Data(d) =>
      OptCons(h, p, f, args);
      if d.Kw? && (|args| == 1 || |args| == 2) { HomCall(h, p, Lookup, [f] + args, st); }
    case Vec(items) => assert OptV(h, p, f).Vec?;
  }

  lemma {:induction false} HomRounds(h: Host, p: Pass, syms: seq<Sym>, body: Node, env: Env, vs: seq<Value>,
          st: State, fuel: nat)
    requires Ready(h, p) && GoSafe(p, body) && SafeEnv(p, env) && SafeVs(p, vs) && SafeState(p, st)
    ensures SameOut(h, p, Rounds(h, syms, Transform(h, p, body), OptEnv(h, p, env), OptVs(h, p, vs),
            OptState(h, p, st), fuel),
                    Rounds(h, syms, body, env, vs, st, fuel))
    decreases fuel, 1, body, 6
  {
    hide Ready, SafeEnv, SafeState, OptEnv, OptState, SafeVs, Transform, Eval, GoSafe, OptVs, BindAll;
    HomBind(h, p, env, syms, vs);
    HomNode(h, p, body, BindAll(env, syms, vs), st, fuel);
    var r := Eval(h, body, BindAll(env, syms, vs), st, fuel);
    if r.Recurred? && |r.vs| == |syms| && fuel > 0 {
      HomRounds(h, p, syms, body, env, r.vs, r.st, fuel - 1);
    }
    BadRecur(h, p);
  }

  lemma BadRecur(h: Host, p: Pass)
    ensures OptV(h, p, BAD_RECUR) == BAD_RECUR && SafeV(p, BAD_RECUR)
  {}

  lemma NumbersTarget(h: Host, p: Pass, target: Node)
    requires Blind(h, p)
    ensures Transform(h, p, target) == Const(NUMBERS) <==> target == Const(NUMBERS)
  {
    hide TransformChildren, Foldable;
    SameKind(h, p, target);
  }

  lemma {:induction false} HomHostCall(h: Host, p: Pass, n: Node, env: Env, st: State, fuel: nat)
    requires Here(h, p, n, env, st) && n.HostCall?
    ensures Same(h, p, n, TransformChildren(h, p, n), env, st, fuel)
    decreases fuel, 1, n, 2
  {
    hide SafeEnv, SafeState, OptEnv, OptState, OptV, OptVs, SafeV, SafeVs, Transform, EvalAll, Call, CallPure, Blind;
    if n.resolved {
      HomAll(h, p, n.args, env, st, fuel);
      var r := EvalAll(h, n.args, env, st, fuel);
      NumbersTarget(h, p, n.target);
      if r.Vals? {
        HomPure(h, p, n.name, r.vs, r.st);
        HomCall(h, p, Method(n.name), r.vs, r.st);
      }
    } else {
      HomNode(h, p, n.target, env, st, fuel);
      var t := Eval(h, n.target, env, st, fuel);
      if t.Val? {
        HomAll(h, p, n.args, env, t.st, fuel);
        var r := EvalAll(h, n.args, env, t.st, fuel);
        if r.Vals? {
          OptCons(h, p, t.v, r.vs);
          HomCall(h, p, Method(n.name), [t.v] + r.vs, r.st);
        }
      }
    }
  }

  lemma {:induction false} HomKeyword(h: Host, p: Pass, n: Node, env: Env, st: State, fuel: nat)
    requires Here(h, p, n, env, st) && n.KeywordLookup?
    ensures Same(h, p, n, TransformChildren(h, p, n), env, st, fuel)
    decreases fuel, 1, n, 2
  {
    hide Ready, SafeEnv, SafeState, OptEnv, OptState, OptV, OptVs, SafeV, SafeVs, Transform, Call;
    HomNode(h, p, n.target, env, st, fuel);
    KeywordValue(h, p, n.kw);
    var t := Eval(h, n.target, env, st, fuel);
    if t.Val? {
      var k := Data(Kw(n.kw));
      if n.default.NoNodes? {
        OptPair(h, p, k, t.v);
        HomCall(h, p, Lookup, [k, t.v], t.st);
      } else {
        assert GoSafeAll(p, n.default);
        HomNode(h, p, n.default.head, env, t.st, fuel);
        var d := Eval(h, n.default.head, env, t.st, fuel);
        if d.Val? {
          OptTriple(h, p, k, t.v, d.v);
          HomCall(h, p, Lookup, [k, t.v, d.v], d.st);
        }
      }
    }
  }

  lemma KeywordValue(h: Host, p: Pass, k: int)
    ensures OptV(h, p, Data(Kw(k))) == Data(Kw(k)) && SafeV(p, Data(Kw(k)))
  {}

  lemma {:induction false} HomAssocNode(h: Host, p: Pass, n: Node, env: Env, st: State, fuel: nat)
    requires Here(h, p, n, env, st) && n.Assoc?
    ensures Same(h, p, n, TransformChildren(h, p, n), env, st, fuel)
    decreases fuel, 1, n, 2
  {
    hide Ready, SafeEnv, SafeState, OptEnv, OptState, OptV, OptVs, SafeV, SafeVs, Transform, EvalEntries, AssocAll;
    HomNode(h, p, n.target, env, st, fuel);
    var m := Eval(h, n.target, env, st, fuel);
    if m.Val? {
      HomEntries(h, p, n.entries, env, m.st, fuel);
      var r := EvalEntries(h, n.entries, env, m.st, fuel);
      if r.Vals? { HomAssoc(h, p, m.v, r.vs, r.st); }
    }
  }

  lemma {:induction false} HomReplace(h: Host, p: Pass, n: Node, env: Env, st: State, fuel: nat)
    requires Here(h, p, n, env, st) && n.ReplaceLast?
    ensures Same(h, p, n, TransformChildren(h, p, n), env, st, fuel)
    decreases fuel, 1, n, 2
  {
    hide Ready, SafeEnv, SafeState, OptEnv, OptState, OptV, OptVs, SafeV, SafeVs, Transform, Eval,
        PrepareReplaceLast, FinishReplaceLast;
    HomNode(h, p, n.coll, env, st, fuel);
    EvalReplaceLast(h, n.coll, n.value, env, st, fuel);
    EvalReplaceLast(h, Transform(h, p, n.coll), Transform(h, p, n.value), OptEnv(h, p, env), OptState(h, p, st), fuel);
    var c := Eval(h, n.coll, env, st, fuel);
    if c.Val? {
      HomPrepare(h, p, c.v, c.st);
      var plan := PrepareReplaceLast(h, c.v, c.st);
      if plan.Val? {
        HomNode(h, p, n.value, env, plan.st, fuel);
        var x := Eval(h, n.value, env, plan.st, fuel);
        if x.Val? { HomFinish(h, p, c.v, plan.v, x.v, x.st); }
      }
    }
  }

  lemma HomPrepare(h: Host, p: Pass, c: Value, st: State)
    requires Ready(h, p) && SafeV(p, c) && SafeState(p, st)
    ensures SameOut(h, p, PrepareReplaceLast(h, OptV(h, p, c), OptState(h, p, st)), PrepareReplaceLast(h, c, st))
  {
    hide Ready, SafeState, OptState, Call;
    HomPop(h, p, c, st);
  }

  lemma HomFinish(h: Host, p: Pass, c: Value, plan: Value, x: Value, st: State)
    requires Ready(h, p) && SafeV(p, c) && SafeV(p, plan) && SafeV(p, x) && SafeState(p, st)
    ensures SameOut(h, p, FinishReplaceLast(h, OptV(h, p, c), OptV(h, p, plan), OptV(h, p, x), OptState(h, p, st)),
                    FinishReplaceLast(h, c, plan, x, st))
  {
    hide Ready, SafeState, OptState, ConjValue, OptVs, SafeVs, OptV, SafeV;
    HomConj(h, p, plan, x, st);
    OptOfVec(h, p, c);
    if c.Vec? && c.items != [] {
      OptUpdate(h, p, c.items, |c.items| - 1, x);
      OptOfVec(h, p, Vec(c.items[|c.items| - 1 := x]));
    }
  }

  lemma OptOfVec(h: Host, p: Pass, c: Value)
    ensures c.Vec? <==> OptV(h, p, c).Vec?
    ensures c.Vec? ==> OptV(h, p, c).items == OptVs(h, p, c.items) && (SafeV(p, c) <==> SafeVs(p, c.items))
  {
    hide OptVs, SafeVs;
  }

  lemma OptUpdate(h: Host, p: Pass, vs: seq<Value>, i: nat, x: Value)
    requires i < |vs|
    ensures OptVs(h, p, vs[i := x]) == OptVs(h, p, vs)[i := OptV(h, p, x)]
    ensures SafeVs(p, vs) && SafeV(p, x) ==> SafeVs(p, vs[i := x])
  {
    hide OptV, SafeV;
  }

  lemma {:induction false} HomIf(h: Host, p: Pass, n: Node, env: Env, st: State, fuel: nat)
    requires Here(h, p, n, env, st) && n.If?
    ensures Same(h, p, n, TransformChildren(h, p, n), env, st, fuel)
    decreases fuel, 1, n, 2
  {
    hide Ready, SafeEnv, SafeState, OptEnv, OptState, OptV, OptVs, SafeV, SafeVs, Transform;
    HomNode(h, p, n.test, env, st, fuel);
    var v := Eval(h, n.test, env, st, fuel);
    if v.Val? {
      OptTruthy(h, p, v.v);
      HomNode(h, p, n.thn, env, v.st, fuel);
      HomNode(h, p, n.els, env, v.st, fuel);
    }
  }

  lemma OptTruthy(h: Host, p: Pass, v: Value)
    ensures Truthy(OptV(h, p, v)) == Truthy(v)
  {}

  lemma {:induction false} HomDo(h: Host, p: Pass, n: Node, env: Env, st: State, fuel: nat)
    requires Here(h, p, n, env, st) && n.Do?
    ensures Same(h, p, n, TransformChildren(h, p, n), env, st, fuel)
    decreases fuel, 1, n, 2
  {
    hide Ready, SafeEnv, SafeState, OptEnv, OptState, OptV, OptVs, SafeV, SafeVs, Transform, EvalAll;
    HomAll(h, p, n.stmts, env, st, fuel);
    var r := EvalAll(h, n.stmts, env, st, fuel);
    if r.Vals? { HomNode(h, p, n.ret, env, r.st, fuel); }
  }

  lemma {:induction false} HomLet(h: Host, p: Pass, n: Node, env: Env, st: State, fuel: nat)
    requires Here(h, p, n, env, st) && n.Let?
    ensures Same(h, p, n, TransformChildren(h, p, n), env, st, fuel)
    decreases fuel, 1, n, 2
  {
    hide Ready, SafeEnv, SafeState, OptEnv, OptState, OptV, OptVs, SafeV, SafeVs, Transform, EvalBindings, BindAll;
    HomBindings(h, p, n.bindings, env, st, fuel);
    var r := EvalBindings(h, n.bindings, env, st, fuel);
    if r.Vals? {
      HomBind(h, p, env, Syms(n.bindings), r.vs);
      HomNode(h, p, n.body, BindAll(env, Syms(n.bindings), r.vs), r.st, fuel);
    }
  }

  lemma {:induction false} HomLoop(h: Host, p: Pass, n: Node, env: Env, st: State, fuel: nat)
    requires Here(h, p, n, env, st) && n.Loop?
    ensures Same(h, p, n, TransformChildren(h, p, n), env, st, fuel)
    decreases fuel, 1, n, 2
  {
    hide Ready, SafeEnv, SafeState, OptEnv, OptState, OptV, OptVs, SafeV, SafeVs, Transform, EvalBindings, Rounds;
    HomBindings(h, p, n.bindings, env, st, fuel);
    var r := EvalBindings(h, n.bindings, env, st, fuel);
    if r.Vals? { HomRounds(h, p, Syms(n.bindings), n.body, env, r.vs, r.st, fuel); }
  }

  lemma {:induction false} HomRecur(h: Host, p: Pass, n: Node, env: Env, st: State, fuel: nat)
    requires Here(h, p, n, env, st) && n.Recur?
    ensures Same(h, p, n, TransformChildren(h, p, n), env, st, fuel)
    decreases fuel, 1, n, 2
  {
    hide Ready, SafeEnv, SafeState, OptEnv, OptState, OptV, OptVs, SafeV, SafeVs, Transform, EvalAll;
    HomAll(h, p, n.args, env, st, fuel);
  }

  lemma {:induction false} HomThrow(h: Host, p: Pass, n: Node, env: Env, st: State, fuel: nat)
    requires Here(h, p, n, env, st) && n.Throw?
    ensures Same(h, p, n, TransformChildren(h, p, n), env, st, fuel)
    decreases fuel, 1, n, 2
  {
    hide Ready, SafeEnv, SafeState, OptEnv, OptState, OptV, OptVs, SafeV, SafeVs, Transform;
    HomNode(h, p, n.exception, env, st, fuel);
  }

  lemma {:induction false} HomAssign(h: Host, p: Pass, n: Node, env: Env, st: State, fuel: nat)
    requires Here(h, p, n, env, st) && (n.Def? || n.SetBang?)
    ensures Same(h, p, n, TransformChildren(h, p, n), env, st, fuel)
    decreases fuel, 1, n, 2
  {
    hide Ready, SafeEnv, SafeState, OptEnv, OptState, OptV, OptVs, SafeV, SafeVs, Transform, SetRoot;
    var e := if n.Def? then n.init else n.val;
    HomNode(h, p, e, env, st, fuel);
    var x := Eval(h, e, env, st, fuel);
    if x.Val? {
      HomSetRoot(h, p, n.v, x.v, x.v, x.st);
      Primitives(h, p);
      HomSetRoot(h, p, n.v, x.v, PrimFn(Unbound), x.st);
    }
  }

  lemma Primitives(h: Host, p: Pass)
    ensures OptV(h, p, PrimFn(Unbound)) == PrimFn(Unbound) && SafeV(p, PrimFn(Unbound))
    ensures OptV(h, p, Data(Datum.Nil)) == Data(Datum.Nil) && SafeV(p, Data(Datum.Nil))
    ensures OptV(h, p, BAD_GO) == BAD_GO && SafeV(p, BAD_GO)
  {}

  lemma HomSetRoot(h: Host, p: Pass, v: Var, value: Value, result: Value, st: State)
    requires SafeV(p, value) && SafeV(p, result) && SafeState(p, st)
    ensures SameOut(h, p, SetRoot(h, v, OptV(h, p, value), OptV(h, p, result), OptState(h, p, st)),
            SetRoot(h, v, value, result, st))
  {
    hide OptV, SafeV, OptTrace, SafeTrace, IsLinked;
    RootsUpdate(h, p, st.roots, v, value);
  }

  lemma RootsUpdate(h: Host, p: Pass, roots: map<Var, Value>, v: Var, value: Value)
    ensures OptRoots(h, p, roots[v := value]) == OptRoots(h, p, roots)[v := OptV(h, p, value)]
  {
    hide OptV;
  }

  lemma {:induction false} HomTry(h: Host, p: Pass, n: Node, env: Env, st: State, fuel: nat)
    requires Here(h, p, n, env, st) && n.Try?
    ensures Same(h, p, n, TransformChildren(h, p, n), env, st, fuel)
    decreases fuel, 1, n, 2
  {
    hide Ready, SafeEnv, SafeState, OptEnv, OptState, OptV, OptVs, SafeV, SafeVs, Transform, EvalCatch;
    HomCatch(h, p, n, env, st, fuel);
    var o := EvalCatch(h, n, env, st, fuel);
    assert GoSafeAll(p, n.finally);
    if n.finally.Nodes? && (o.Val? || o.Threw?) { HomNode(h, p, n.finally.head, env, o.st, fuel); }
  }

  lemma {:induction false} HomCatch(h: Host, p: Pass, n: Node, env: Env, st: State, fuel: nat)
    requires Here(h, p, n, env, st) && n.Try?
    ensures SameOut(h, p, EvalCatch(h, TransformChildren(h, p, n), OptEnv(h, p, env), OptState(h, p, st), fuel),
            EvalCatch(h, n, env, st, fuel))
    decreases fuel, 1, n, 1
  {
    hide Ready, SafeEnv, SafeState, OptEnv, OptState, OptV, OptVs, SafeV, SafeVs, Transform, Eval;
    BadRecur(h, p);
    HomNode(h, p, n.body, env, st, fuel);
    var r := Eval(h, n.body, env, st, fuel);
    if r.Threw? {
      HomNode(h, p, n.kind, env, r.st, fuel);
      var k := Eval(h, n.kind, env, r.st, fuel);
      if k.Val? {
        HomCatches(h, p, r.error, k.v);
        OptBound(h, p, n.catch, r.error, env);
        HomNode(h, p, n.handler, Bound(n.catch, r.error, env), k.st, fuel);
      }
    }
  }

  lemma HomCatches(h: Host, p: Pass, e: Value, c: Value)
    requires Ready(h, p)
    ensures h.catches(OptV(h, p, e), OptV(h, p, c)) == h.catches(e, c)
  {
    hide OptV;
  }

  lemma GoCall(h: Host, p: Pass, call: Node)
    requires GoSafe(p, Go(call))
    ensures call.Invoke? <==> Transform(h, p, call).Invoke?
    ensures call.Invoke? ==> Transform(h, p, call) == Invoke(Transform(h, p, call.fn), TransformNodes(h, p, call.args))
    ensures call.Invoke? ==> GoSafe(p, call.fn) && GoSafeAll(p, call.args)
  {
    hide Rewrite, Lowers;
    SameKind(h, p, call);
    RewriteKind(h, p, TransformChildren(h, p, call));
    if call.Invoke? { GoKeepsItsCall(h, p, call); }
  }

  lemma {:induction false} HomGo(h: Host, p: Pass, n: Node, env: Env, st: State, fuel: nat)
    requires Here(h, p, n, env, st) && n.Go?
    ensures Same(h, p, n, TransformChildren(h, p, n), env, st, fuel)
    decreases fuel, 1, n, 2
  {
    hide Ready, SafeEnv, SafeState, OptEnv, OptState, OptV, OptVs, SafeV, SafeVs, Transform, EvalAll, GoSafe,
        TransformNodes;
    GoCall(h, p, n.call);
    Primitives(h, p);
    if n.call.Invoke? {
      HomNode(h, p, n.call.fn, env, st, fuel);
      var f := Eval(h, n.call.fn, env, st, fuel);
      if f.Val? {
        HomAll(h, p, n.call.args, env, f.st, fuel);
        var r := EvalAll(h, n.call.args, env, f.st, fuel);
        if r.Vals? { HomSpawn(h, p, f.v, r.vs, r.st); }
      }
    }
  }

  lemma HomSpawn(h: Host, p: Pass, f: Value, args: seq<Value>, st: State)
    requires SafeV(p, f) && SafeVs(p, args) && SafeState(p, st)
    ensures var next := st.(trace := st.trace + [Spawned(f, args)]);
            var opt := OptState(h, p, st);
            SafeState(p, next)
            && OptState(h, p, next) == opt.(trace := opt.trace + [Spawned(OptV(h, p, f), OptVs(h, p, args))])
  {
    hide SafeTrace, SafeVs, OptVs, OptTrace, OptV, SafeV;
    HomTrace(h, p, st.trace, Spawned(f, args));
  }
}
