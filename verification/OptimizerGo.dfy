/**
 `go` insists that its operand is still a call (`pkg/runtime/evalast.go`), but the passes lower calls of certain
 shapes to other nodes (`pkg/compiler/optimize.go`). Which calls those are can be read off the program before any
 pass has run.
 */
module OptimizerGo {
  import opened Ast
  import opened Optimizer

  /** Pure Numbers methods do not return keywords, so that folding makes no keyword call. */
  ghost predicate NoKeywords(h: Host) {
    forall name, ds :: h.pure(name, ds).Returns? ==> !h.pure(name, ds).d.Kw?
  }

  /** Folding makes keyword calls only if the host is odd. */
  ghost predicate Tame(h: Host, p: Pass, q: Pass) {
    p.LowerKeywordLookup? && q.FoldLiteralNumbers? ==> NoKeywords(h)
  }

  // ---- what a sweep does to the shape of a call ----

  lemma SameKind(h: Host, q: Pass, n: Node)
    ensures var m := TransformChildren(h, q, n);
            && (n.Const? || m.Const? || n.VarRef? || m.VarRef? ==> m == n)
            && (m.Invoke? <==> n.Invoke?)
  {
    hide Transform;
  }

  lemma RewriteKind(h: Host, q: Pass, m: Node)
    ensures var r := Rewrite(h, q, m);
            || r == m
            || (m.Invoke? && (r.ReplaceLast? || r.KeywordLookup? || r.Assoc?))
            || (q.FoldLiteralNumbers? && m.HostCall? && r.Const? && (NoKeywords(h) ==> !r.datum.Kw?))
    ensures Rewrite(h, q, m).Invoke? <==> m.Invoke? && !Lowers(q, m)
  {
    hide IsDirect, One, Two, Pairs, Count, Foldable, Literals;
  }

  lemma VarKept(h: Host, q: Pass, n: Node)
    ensures n.VarRef? || Transform(h, q, n).VarRef? ==> Transform(h, q, n) == n
  {
    hide Rewrite, TransformChildren;
    SameKind(h, q, n);
    RewriteKind(h, q, TransformChildren(h, q, n));
  }

  predicate IsKeyword(n: Node) { n.Const? && n.datum.Kw? }

  lemma KeywordKept(h: Host, q: Pass, n: Node)
    requires q.FoldLiteralNumbers? ==> NoKeywords(h)
    ensures IsKeyword(n) || IsKeyword(Transform(h, q, n)) ==> Transform(h, q, n) == n
  {
    hide Rewrite, TransformChildren, NoKeywords;
    SameKind(h, q, n);
    RewriteKind(h, q, TransformChildren(h, q, n));
  }

  lemma {:induction false} CountKept(h: Host, q: Pass, ns: Nodes)
    ensures Count(TransformNodes(h, q, ns)) == Count(ns)
    ensures One(TransformNodes(h, q, ns)) <==> One(ns)
    ensures Two(TransformNodes(h, q, ns)) <==> Two(ns)
  {
    hide Transform;
    if ns.Nodes? { CountKept(h, q, ns.tail); }
  }

  /** Calls of core functions stay calls of the same function with as many arguments. */
  lemma CoreCallKept(h: Host, q: Pass, n: Node, name: string)
    ensures IsCoreCall(TransformChildren(h, q, n), name) <==> IsCoreCall(n, name)
    ensures n.Invoke? ==> Count(TransformChildren(h, q, n).args) == Count(n.args)
                          && (One(TransformChildren(h, q, n).args) <==> One(n.args))
                          && (Two(TransformChildren(h, q, n).args) <==> Two(n.args))
  {
    hide Transform, IsDirect, Count, One, Two;
    SameKind(h, q, n);
    if n.Invoke? {
      VarKept(h, q, n.fn);
      CountKept(h, q, n.args);
    }
  }

  predicate IsPop(n: Node) { IsCoreCall(n, "pop") && One(n.args) }

  lemma PopKept(h: Host, q: Pass, n: Node)
    ensures IsPop(Transform(h, q, n)) <==> IsPop(n)
  {
    hide Rewrite, TransformChildren, One, Two, Count;
    var m := TransformChildren(h, q, n);
    SameKind(h, q, n);
    RewriteKind(h, q, m);
    CoreCallKept(h, q, n, "pop");
    if IsPop(n) {
      assert m.fn.VarRef? && m.fn.v.name == "pop";
      assert !IsCoreCall(m, "conj") && !IsCoreCall(m, "assoc");
    }
  }

  /** Transforming the parts of a call neither makes nor breaks one of the shapes. */
  lemma ShapeKept(h: Host, p: Pass, q: Pass, call: Node)
    requires Tame(h, p, q)
    ensures Lowers(p, TransformChildren(h, q, call)) <==> Lowers(p, call)
  {
    hide Transform, IsDirect, Count, NoKeywords;
    var m := TransformChildren(h, q, call);
    SameKind(h, q, call);
    if call.Invoke? {
      CoreCallKept(h, q, call, "conj");
      CoreCallKept(h, q, call, "assoc");
      match p
      case FoldLiteralNumbers =>
      case FuseReplaceLast => if Two(call.args) { PopKept(h, q, call.args.head); }
      case LowerKeywordLookup => KeywordKept(h, q, call.fn);
      case LowerAssoc =>
    }
  }

  /** A pass leaves the call of a `go` a call exactly if it is not of the pass's shape. */
  lemma GoKeepsItsCall(h: Host, p: Pass, call: Node)
    requires call.Invoke?
    ensures Transform(h, p, call).Invoke? <==> !Lowers(p, call)
    ensures Transform(h, p, call).Invoke? ==> Transform(h, p, call) == TransformChildren(h, p, call)
  {
    hide Rewrite, TransformChildren, Lowers;
    ShapeKept(h, p, p, call);
    SameKind(h, p, call);
    RewriteKind(h, p, TransformChildren(h, p, call));
  }

  /** And no other pass changes whether it is. */
  lemma LowersAfter(h: Host, p: Pass, q: Pass, call: Node)
    requires Tame(h, p, q)
    ensures Lowers(p, Transform(h, q, call)) <==> Lowers(p, call) && !Lowers(q, call)
  {
    hide Rewrite, TransformChildren, Lowers, Tame;
    LowersCalls(p, call);
    LowersCalls(q, call);
    LowersCalls(p, Transform(h, q, call));
    SameKind(h, q, call);
    RewriteKind(h, q, TransformChildren(h, q, call));
    if call.Invoke? {
      GoKeepsItsCall(h, q, call);
      ShapeKept(h, p, q, call);
    }
  }

  lemma LowersCalls(p: Pass, n: Node)
    ensures Lowers(p, n) ==> n.Invoke?
  {}

  // ---- the same through a whole pipeline ----

  lemma {:induction false} RunGo(h: Host, ps: seq<Pass>, call: Node)
    ensures Run(h, ps, Go(call)) == Go(Run(h, ps, call))
    decreases |ps|
  {
    if ps != [] {
      assert Transform(h, ps[0], Go(call)) == Go(Transform(h, ps[0], call));
      RunGo(h, ps[1..], Transform(h, ps[0], call));
    }
  }

  lemma {:induction false} NoNewCall(h: Host, ps: seq<Pass>, n: Node)
    requires !n.Invoke?
    ensures !Run(h, ps, n).Invoke?
    decreases |ps|
  {
    hide Rewrite, TransformChildren;
    if ps != [] {
      SameKind(h, ps[0], n);
      RewriteKind(h, ps[0], TransformChildren(h, ps[0], n));
      NoNewCall(h, ps[1..], Transform(h, ps[0], n));
    }
  }

  /** Through all the passes, the call stays a call exactly if it has the shape of none of them. */
  lemma {:induction false} PipelineKeepsItsCall(h: Host, ps: seq<Pass>, call: Node)
    requires call.Invoke? && NoKeywords(h)
    ensures Run(h, ps, call).Invoke? <==> forall p :: p in ps ==> !Lowers(p, call)
    decreases |ps|
  {
    hide Transform, Lowers, NoKeywords;
    if ps != [] {
      var next := Transform(h, ps[0], call);
      GoKeepsItsCall(h, ps[0], call);
      if Lowers(ps[0], call) {
        NoNewCall(h, ps[1..], next);
      } else {
        PipelineKeepsItsCall(h, ps[1..], next);
        forall p ensures Lowers(p, next) <==> Lowers(p, call) { LowersAfter(h, p, ps[0], call); }
        assert forall p :: p in ps <==> p == ps[0] || p in ps[1..];
      }
    }
  }

  // ---- every pass keeps every `go` of the program safe for the others ----

  lemma {:induction false} GoSafeKept(h: Host, p: Pass, q: Pass, n: Node)
    requires GoSafe(p, n) && Tame(h, p, q)
    ensures GoSafe(p, Transform(h, q, n))
    decreases n, 1
  {
    hide Rewrite, TransformChildren, GoSafe, Tame;
    ChildrenGoSafe(h, p, q, n);
    RewriteGoSafe(h, p, q, TransformChildren(h, q, n));
  }

  lemma RewriteGoSafe(h: Host, p: Pass, q: Pass, m: Node)
    requires GoSafe(p, m)
    ensures GoSafe(p, Rewrite(h, q, m))
  {
    hide Foldable, Literals, IsDirect, Pairs;
    match q
    case FoldLiteralNumbers =>
    case FuseReplaceLast =>
      if IsConjOfPop(m) {
        assert GoSafe(p, m.args.head) && GoSafeAll(p, m.args.tail);
        assert GoSafeAll(p, m.args.head.args);
      }
    case LowerKeywordLookup =>
    case LowerAssoc => if IsAssocCall(m) { PairsGoSafe(p, m.args.tail); }
  }

  lemma {:induction false} PairsGoSafe(p: Pass, ns: Nodes)
    requires GoSafeAll(p, ns)
    ensures GoSafeEntries(p, Pairs(ns))
  {
    hide GoSafe;
    if ns.Nodes? && ns.tail.Nodes? { PairsGoSafe(p, ns.tail.tail); }
  }

  lemma {:induction false} ChildrenGoSafe(h: Host, p: Pass, q: Pass, n: Node)
    requires GoSafe(p, n) && Tame(h, p, q)
    ensures GoSafe(p, TransformChildren(h, q, n))
    decreases n, 0
  {
    hide *;
    if n.Strict? || n.Invoke? || n.HostCall? || n.KeywordLookup? || n.Assoc? || n.Recur? {
      ArgsGoSafe(h, p, q, n);
    } else if n.Fn? || n.Def? || n.SetBang? || n.Throw? || n.Go? {
      OperandGoSafe(h, p, q, n);
    } else {
      BodyGoSafe(h, p, q, n);
    }
  }

  lemma {:induction false} ArgsGoSafe(h: Host, p: Pass, q: Pass, n: Node)
    requires n.Strict? || n.Invoke? || n.HostCall? || n.KeywordLookup? || n.Assoc? || n.Recur?
    requires GoSafe(p, n) && Tame(h, p, q)
    ensures GoSafe(p, TransformChildren(h, q, n))
    decreases n, -1
  {
    hide Transform, Lowers, Tame;
    match n
    case Strict(_, args) => AllGoSafe(h, p, q, args);
    case Invoke(fn, args) =>
      GoSafeKept(h, p, q, fn);
      AllGoSafe(h, p, q, args);
    case HostCall(target, _, _, args) =>
      GoSafeKept(h, p, q, target);
      AllGoSafe(h, p, q, args);
    case KeywordLookup(_, target, default) =>
      GoSafeKept(h, p, q, target);
      AllGoSafe(h, p, q, default);
    case Assoc(target, entries) =>
      GoSafeKept(h, p, q, target);
      EntriesGoSafe(h, p, q, entries);
    case Recur(args) => AllGoSafe(h, p, q, args);
  }

  lemma {:induction false} OperandGoSafe(h: Host, p: Pass, q: Pass, n: Node)
    requires n.Fn? || n.Def? || n.SetBang? || n.Throw? || n.Go?
    requires GoSafe(p, n) && Tame(h, p, q)
    ensures GoSafe(p, TransformChildren(h, q, n))
    decreases n, -1
  {
    hide Transform, Lowers, Tame;
    match n
    case Fn(_, _, body) => GoSafeKept(h, p, q, body);
    case Def(_, init) => GoSafeKept(h, p, q, init);
    case SetBang(_, val) => GoSafeKept(h, p, q, val);
    case Throw(e) => GoSafeKept(h, p, q, e);
    case Go(call) =>
      GoSafeKept(h, p, q, call);
      LowersAfter(h, p, q, call);
  }

  lemma {:induction false} BodyGoSafe(h: Host, p: Pass, q: Pass, n: Node)
    requires n.Try? || n.If? || n.ReplaceLast? || n.Do? || n.Let? || n.Loop? || n.Const? || n.Local? || n.VarRef?
    requires GoSafe(p, n) && Tame(h, p, q)
    ensures GoSafe(p, TransformChildren(h, q, n))
    decreases n, -1
  {
    hide Transform, Lowers, Tame;
    match n
    case ReplaceLast(coll, value) =>
      GoSafeKept(h, p, q, coll);
      GoSafeKept(h, p, q, value);
    case If(test, thn, els) =>
      GoSafeKept(h, p, q, test);
      GoSafeKept(h, p, q, thn);
      GoSafeKept(h, p, q, els);
    case Do(stmts, ret) =>
      AllGoSafe(h, p, q, stmts);
      GoSafeKept(h, p, q, ret);
    case Let(bs, body) =>
      BindingsGoSafe(h, p, q, bs);
      GoSafeKept(h, p, q, body);
    case Loop(bs, body) =>
      BindingsGoSafe(h, p, q, bs);
      GoSafeKept(h, p, q, body);
    case Try(body, kind, _, handler, finally) =>
      GoSafeKept(h, p, q, body);
      GoSafeKept(h, p, q, kind);
      GoSafeKept(h, p, q, handler);
      AllGoSafe(h, p, q, finally);
    case _ =>
  }

  lemma {:induction false} AllGoSafe(h: Host, p: Pass, q: Pass, ns: Nodes)
    requires GoSafeAll(p, ns) && Tame(h, p, q)
    ensures GoSafeAll(p, TransformNodes(h, q, ns))
    decreases ns, 0
  {
    hide Transform, GoSafe, Tame;
    if ns.Nodes? {
      GoSafeKept(h, p, q, ns.head);
      AllGoSafe(h, p, q, ns.tail);
    }
  }

  lemma {:induction false} EntriesGoSafe(h: Host, p: Pass, q: Pass, es: Entries)
    requires GoSafeEntries(p, es) && Tame(h, p, q)
    ensures GoSafeEntries(p, TransformEntries(h, q, es))
    decreases es, 0
  {
    hide Transform, GoSafe, Tame;
    if es.Entry? {
      GoSafeKept(h, p, q, es.key);
      GoSafeKept(h, p, q, es.val);
      EntriesGoSafe(h, p, q, es.rest);
    }
  }

  lemma {:induction false} BindingsGoSafe(h: Host, p: Pass, q: Pass, bs: Bindings)
    requires GoSafeBindings(p, bs) && Tame(h, p, q)
    ensures GoSafeBindings(p, TransformBindings(h, q, bs))
    decreases bs, 0
  {
    hide Transform, GoSafe, Tame;
    if bs.Binding? {
      GoSafeKept(h, p, q, bs.init);
      BindingsGoSafe(h, p, q, bs.rest);
    }
  }

  // ---- and every function of the running program ----

  lemma {:induction false} SafeValueKept(h: Host, p: Pass, q: Pass, v: Value)
    requires SafeV(p, v) && Tame(h, p, q)
    ensures SafeV(p, OptV(h, q, v))
    decreases v
  {
    hide GoSafe, Transform, Tame;
    match v
    case Vec(items) => SafeValuesKept(h, p, q, items);
    case Closure(_, _, body, env) =>
      GoSafeKept(h, p, q, body);
      SafeEnvKept(h, p, q, env);
    case _ =>
  }

  lemma {:induction false} SafeValuesKept(h: Host, p: Pass, q: Pass, vs: seq<Value>)
    requires SafeVs(p, vs) && Tame(h, p, q)
    ensures SafeVs(p, OptVs(h, q, vs))
    decreases vs
  {
    hide SafeV, OptV, Tame;
    forall i | 0 <= i < |vs|
      ensures SafeV(p, OptVs(h, q, vs)[i])
    {
      assert (vs decreases to vs[i]);
      SafeValueKept(h, p, q, vs[i]);
    }
  }

  lemma {:induction false} SafeEnvKept(h: Host, p: Pass, q: Pass, env: Env)
    requires SafeEnv(p, env) && Tame(h, p, q)
    ensures SafeEnv(p, OptEnv(h, q, env))
    decreases env
  {
    hide SafeV, OptV, Tame;
    if env.Bound? {
      SafeValueKept(h, p, q, env.value);
      SafeEnvKept(h, p, q, env.rest);
    }
  }

  lemma SafeStateKept(h: Host, p: Pass, q: Pass, st: State)
    requires SafeState(p, st) && Tame(h, p, q)
    ensures SafeState(p, OptState(h, q, st))
  {
    hide SafeV, OptV, SafeVs, OptVs, Tame;
    forall v | v in st.roots ensures SafeV(p, OptV(h, q, st.roots[v])) { SafeValueKept(h, p, q, st.roots[v]); }
    forall i | 0 <= i < |st.trace|
      ensures SafeEvent(p, OptEvent(h, q, st.trace[i]))
    {
      assert SafeEvent(p, st.trace[i]);
      SafeEventKept(h, p, q, st.trace[i]);
    }
  }

  lemma SafeEventKept(h: Host, p: Pass, q: Pass, e: Event)
    requires SafeEvent(p, e) && Tame(h, p, q)
    ensures SafeEvent(p, OptEvent(h, q, e))
  {
    hide SafeV, OptV, SafeVs, OptVs, Tame;
    match e
    case Called(_, args) => SafeValuesKept(h, p, q, args);
    case Spawned(f, args) =>
      SafeValueKept(h, p, q, f);
      SafeValuesKept(h, p, q, args);
  }
}
