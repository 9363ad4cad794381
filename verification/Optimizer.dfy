/**
 The optimisation passes (`pkg/compiler/optimize.go`, `constant_fold.go`), the post-order rewriter
 under them (`pkg/ast/transform.go`), and the pipeline.
 */
module Optimizer {
  import opened Objects
  import opened Ast

  datatype Pass = FoldLiteralNumbers | FuseReplaceLast | LowerKeywordLookup | LowerAssoc

  // ---- the four rewrites of a single node ----

  function Rewrite(h: Host, p: Pass, n: Node): Node {
    match p
    case FoldLiteralNumbers => Fold(h, n)
    case FuseReplaceLast => Fuse(n)
    case LowerKeywordLookup => LowerKeyword(n)
    case LowerAssoc => LowerAssocCall(n)
  }

  /** The values of arguments that are all constants. */
  function Literals(ns: Nodes): Option<seq<Datum>> {
    match ns
    case NoNodes => Some([])
    case Nodes(n, rest) =>
      var ds := Literals(rest);
      if n.Const? && ds.Some? then Some([n.datum] + ds.value) else None
  }

  /** A pure Numbers call on literals becomes its value; a call that traps is left for run time. */
  function Fold(h: Host, n: Node): Node {
    if n.HostCall? && Foldable(n.target, n.name, n.resolved) && Literals(n.args).Some? then
      match h.pure(Lower(n.name), Literals(n.args).value)
      case Returns(d) => Const(d)
      case Traps(_) => n
    else n
  }

  predicate One(ns: Nodes) { ns.Nodes? && ns.tail.NoNodes? }

  predicate Two(ns: Nodes) { ns.Nodes? && One(ns.tail) }

  predicate IsCoreCall(n: Node, name: string) {
    n.Invoke? && n.fn.VarRef? && IsDirect(n.fn.v, name)
  }

  /** `(conj (pop coll) value)` */
  predicate IsConjOfPop(n: Node) {
    IsCoreCall(n, "conj") && Two(n.args) && IsCoreCall(n.args.head, "pop") && One(n.args.head.args)
  }

  function Fuse(n: Node): Node {
    if IsConjOfPop(n) then ReplaceLast(n.args.head.args.head, n.args.tail.head)
    else n
  }

  /** `(:k target)` and `(:k target default)` */
  predicate IsKeywordCall(n: Node) {
    n.Invoke? && (One(n.args) || Two(n.args)) && n.fn.Const? && n.fn.datum.Kw?
  }

  function LowerKeyword(n: Node): Node {
    if IsKeywordCall(n) then KeywordLookup(n.fn.datum.k, n.args.head, n.args.tail) else n
  }

  /** The arguments of `assoc` after its target, in pairs. */
  function Pairs(ns: Nodes): Entries {
    if ns.NoNodes? || ns.tail.NoNodes? then NoEntries else Entries.Entry(ns.head, ns.tail.head, Pairs(ns.tail.tail))
  }

  /** `(assoc target k v ...)` */
  predicate IsAssocCall(n: Node) { IsCoreCall(n, "assoc") && Count(n.args) >= 3 && Count(n.args) % 2 == 1 }

  function LowerAssocCall(n: Node): Node {
    if IsAssocCall(n) then Assoc(n.args.head, Pairs(n.args.tail)) else n
  }

  // ---- one sweep ----

  /** Children first, then the node itself. */
  function Transform(h: Host, p: Pass, n: Node): Node
    decreases n, 1
  {
    Rewrite(h, p, TransformChildren(h, p, n))
  }

  function TransformChildren(h: Host, p: Pass, n: Node): Node
    decreases n, 0
  {
    match n
    case Strict(op, args) => Strict(op, TransformNodes(h, p, args))
    case Invoke(fn, args) => Invoke(Transform(h, p, fn), TransformNodes(h, p, args))
    case HostCall(target, name, resolved, args) => HostCall(Transform(h, p, target), name, resolved,
        TransformNodes(h, p, args))
    case KeywordLookup(k, target, default) => KeywordLookup(k, Transform(h, p, target), TransformNodes(h, p, default))
    case Assoc(target, entries) => Assoc(Transform(h, p, target), TransformEntries(h, p, entries))
    case ReplaceLast(coll, value) => ReplaceLast(Transform(h, p, coll), Transform(h, p, value))
    case If(test, thn, els) => If(Transform(h, p, test), Transform(h, p, thn), Transform(h, p, els))
    case Do(stmts, ret) => Do(TransformNodes(h, p, stmts), Transform(h, p, ret))
    case Let(bs, body) => Let(TransformBindings(h, p, bs), Transform(h, p, body))
    case Loop(bs, body) => Loop(TransformBindings(h, p, bs), Transform(h, p, body))
    case Recur(args) => Recur(TransformNodes(h, p, args))
    case Fn(self, params, body) => Fn(self, params, Transform(h, p, body))
    case Def(v, init) => Def(v, Transform(h, p, init))
    case SetBang(v, val) => SetBang(v, Transform(h, p, val))
    case Throw(e) => Throw(Transform(h, p, e))
    case Try(body, kind, c, handler, finally) =>
      Try(Transform(h, p, body), Transform(h, p, kind), c, Transform(h, p, handler), TransformNodes(h, p, finally))
    case Go(call) => Go(Transform(h, p, call))
    case _ => n
  }

  function TransformNodes(h: Host, p: Pass, ns: Nodes): Nodes
    decreases ns, 0
  {
    if ns.NoNodes? then NoNodes else Nodes(Transform(h, p, ns.head), TransformNodes(h, p, ns.tail))
  }

  function TransformEntries(h: Host, p: Pass, es: Entries): Entries
    decreases es, 0
  {
    if es.NoEntries? then NoEntries
    else Entries.Entry(Transform(h, p, es.key), Transform(h, p, es.val), TransformEntries(h, p, es.rest))
  }

  function TransformBindings(h: Host, p: Pass, bs: Bindings): Bindings
    decreases bs, 0
  {
    if bs.NoBindings? then NoBindings else Binding(bs.sym, Transform(h, p, bs.init), TransformBindings(h, p, bs.rest))
  }

  // ---- the pipeline ----

  function Run(h: Host, passes: seq<Pass>, n: Node): Node
    decreases |passes|
  {
    if passes == [] then n else Run(h, passes[1..], Transform(h, passes[0], n))
  }

  /** The passes that assume direct linking are there only with it. */
  function DefaultPasses(directLinking: bool): seq<Pass> {
    if directLinking then [FoldLiteralNumbers, FuseReplaceLast, LowerKeywordLookup, LowerAssoc]
    else [FoldLiteralNumbers, LowerKeywordLookup]
  }

  datatype Optimized = Tree(root: Node) | NilPass

  class PassPipeline {
    /** `None` stands for a nil pass. */
    const passes: seq<Option<Pass>>

    constructor (passes: seq<Option<Pass>>)
      ensures this.passes == passes
    {
      this.passes := passes;
    }

    constructor Default(directLinking: bool)
      ensures passes == Present(DefaultPasses(directLinking))
    {
      var ps: seq<Option<Pass>> := [Some(FoldLiteralNumbers)];
      if directLinking {
        ps := ps + [Some(FuseReplaceLast)];
      }
      ps := ps + [Some(LowerKeywordLookup)];
      if directLinking {
        ps := ps + [Some(LowerAssoc)];
      }
      passes := ps;
    }

    /** The passes in order, or the error of the first nil one. */
    method Optimize(h: Host, root: Node) returns (r: Optimized)
      ensures r.Tree? <==> None !in passes
      ensures forall ps :: passes == Present(ps) ==> r == Tree(Run(h, ps, root))
    {
      var tree := root;
      for i := 0 to |passes|
        invariant None !in passes[..i]
        invariant forall ps :: passes == Present(ps) ==> Run(h, ps, root) == Run(h, ps[i..], tree)
      {
        if passes[i].None? {
          return NilPass;
        }
        ghost var before := tree;
        tree := Transform(h, passes[i].value, tree);
        forall ps | passes == Present(ps)
          ensures Run(h, ps, root) == Run(h, ps[i + 1..], tree)
        {
          assert ps[i..][0] == passes[i].value && ps[i..][1..] == ps[i + 1..];
        }
      }
      assert passes[..|passes|] == passes;
      r := Tree(tree);
    }
  }

  function Present(ps: seq<Pass>): seq<Option<Pass>> { seq(|ps|, i requires 0 <= i < |ps| => Some(ps[i])) }

  /** `transformNodes`: each element of the slice is replaced in place. */
  method TransformSlice(h: Host, p: Pass, nodes: array<Node>)
    modifies nodes
    ensures forall i :: 0 <= i < nodes.Length ==> nodes[i] == Transform(h, p, old(nodes[i]))
  {
    for i := 0 to nodes.Length
      invariant forall j :: 0 <= j < i ==> nodes[j] == Transform(h, p, old(nodes[j]))
      invariant forall j :: i <= j < nodes.Length ==> nodes[j] == old(nodes[j])
    {
      nodes[i] := Transform(h, p, nodes[i]);
    }
  }

  // ---- the effect of a pass on the running program: function bodies are transformed ----

  function OptV(h: Host, p: Pass, v: Value): Value
    decreases v
  {
    match v
    case Vec(items) => Vec(OptVs(h, p, items))
    case Closure(self, params, body, env) => Closure(self, params, Transform(h, p, body), OptEnv(h, p, env))
    case _ => v
  }

  function OptVs(h: Host, p: Pass, vs: seq<Value>): (r: seq<Value>)
    ensures |r| == |vs|
    decreases vs
  {
    seq(|vs|, i requires 0 <= i < |vs| => assert (vs decreases to vs[i]); OptV(h, p, vs[i]))
  }

  function OptEnv(h: Host, p: Pass, env: Env): Env
    decreases env
  {
    if env.EmptyEnv? then env else Bound(env.sym, OptV(h, p, env.value), OptEnv(h, p, env.rest))
  }

  function OptEvent(h: Host, p: Pass, e: Event): Event {
    match e
    case Called(prim, args) => Called(prim, OptVs(h, p, args))
    case Spawned(f, args) => Spawned(OptV(h, p, f), OptVs(h, p, args))
  }

  function OptTrace(h: Host, p: Pass, t: seq<Event>): seq<Event> {
    seq(|t|, i requires 0 <= i < |t| => OptEvent(h, p, t[i]))
  }

  function OptRoots(h: Host, p: Pass, roots: map<Var, Value>): map<Var, Value> {
    map v | v in roots :: OptV(h, p, roots[v])
  }

  function OptState(h: Host, p: Pass, st: State): State { State(OptRoots(h, p, st.roots), OptTrace(h, p, st.trace)) }

  function OptReply(h: Host, p: Pass, r: Reply): Reply {
    if r.Returned? then Returned(OptV(h, p, r.v)) else Raised(OptV(h, p, r.error))
  }

  function OptOut(h: Host, p: Pass, o: Outcome): Outcome {
    match o
    case Val(v, st) => Val(OptV(h, p, v), OptState(h, p, st))
    case Threw(e, st) => Threw(OptV(h, p, e), OptState(h, p, st))
    case Recurred(vs, st) => Recurred(OptVs(h, p, vs), OptState(h, p, st))
    case _ => o
  }

  function OptOuts(h: Host, p: Pass, o: Outcomes): Outcomes {
    match o
    case Vals(vs, st) => Vals(OptVs(h, p, vs), OptState(h, p, st))
    case Stop(out) => Stop(OptOut(h, p, out))
  }

  // ---- `go`, which insists that its operand is still a call ----

  /** The calls that the pass replaces by something that is not a call. */
  predicate Lowers(p: Pass, call: Node) {
    match p
    case FoldLiteralNumbers => false
    case FuseReplaceLast => IsConjOfPop(call)
    case LowerKeywordLookup => IsKeywordCall(call)
    case LowerAssoc => IsAssocCall(call)
  }

  /** No `go` in the tree is about a call of such a shape. */
  predicate GoSafe(p: Pass, n: Node)
    decreases n, 0
  {
    match n
    case Strict(_, args) => GoSafeAll(p, args)
    case Invoke(fn, args) => GoSafe(p, fn) && GoSafeAll(p, args)
    case HostCall(target, _, _, args) => GoSafe(p, target) && GoSafeAll(p, args)
    case KeywordLookup(_, target, default) => GoSafe(p, target) && GoSafeAll(p, default)
    case Assoc(target, entries) => GoSafe(p, target) && GoSafeEntries(p, entries)
    case ReplaceLast(coll, value) => GoSafe(p, coll) && GoSafe(p, value)
    case If(test, thn, els) => GoSafe(p, test) && GoSafe(p, thn) && GoSafe(p, els)
    case Do(stmts, ret) => GoSafeAll(p, stmts) && GoSafe(p, ret)
    case Let(bs, body) => GoSafeBindings(p, bs) && GoSafe(p, body)
    case Loop(bs, body) => GoSafeBindings(p, bs) && GoSafe(p, body)
    case Recur(args) => GoSafeAll(p, args)
    case Fn(_, _, body) => GoSafe(p, body)
    case Def(_, init) => GoSafe(p, init)
    case SetBang(_, val) => GoSafe(p, val)
    case Throw(e) => GoSafe(p, e)
    case Try(body, kind, _, handler, finally) =>
      GoSafe(p, body) && GoSafe(p, kind) && GoSafe(p, handler) && GoSafeAll(p, finally)
    case Go(call) => GoSafe(p, call) && !Lowers(p, call)
    case _ => true
  }

  predicate GoSafeAll(p: Pass, ns: Nodes)
    decreases ns, 0
  {
    ns.NoNodes? || (GoSafe(p, ns.head) && GoSafeAll(p, ns.tail))
  }

  predicate GoSafeEntries(p: Pass, es: Entries)
    decreases es, 0
  {
    es.NoEntries? || (GoSafe(p, es.key) && GoSafe(p, es.val) && GoSafeEntries(p, es.rest))
  }

  predicate GoSafeBindings(p: Pass, bs: Bindings)
    decreases bs, 0
  {
    bs.NoBindings? || (GoSafe(p, bs.init) && GoSafeBindings(p, bs.rest))
  }

  predicate SafeV(p: Pass, v: Value)
    decreases v
  {
    match v
    case Vec(items) => SafeVs(p, items)
    case Closure(_, _, body, env) => GoSafe(p, body) && SafeEnv(p, env)
    case _ => true
  }

  predicate SafeVs(p: Pass, vs: seq<Value>)
    decreases vs
  {
    forall i :: 0 <= i < |vs| ==> assert (vs decreases to vs[i]); SafeV(p, vs[i])
  }

  predicate SafeEnv(p: Pass, env: Env)
    decreases env
  {
    env.EmptyEnv? || (SafeV(p, env.value) && SafeEnv(p, env.rest))
  }

  predicate SafeEvent(p: Pass, e: Event) {
    match e
    case Called(_, args) => SafeVs(p, args)
    case Spawned(f, args) => SafeV(p, f) && SafeVs(p, args)
  }

  predicate SafeTrace(p: Pass, t: seq<Event>) { forall i :: 0 <= i < |t| ==> SafeEvent(p, t[i]) }

  predicate SafeState(p: Pass, st: State) {
    (forall v :: v in st.roots ==> SafeV(p, st.roots[v])) && SafeTrace(p, st.trace)
  }

  predicate SafeOut(p: Pass, o: Outcome) {
    match o
    case Val(v, st) => SafeV(p, v) && SafeState(p, st)
    case Threw(e, st) => SafeV(p, e) && SafeState(p, st)
    case Recurred(vs, st) => SafeVs(p, vs) && SafeState(p, st)
    case _ => true
  }

  predicate SafeOuts(p: Pass, o: Outcomes) {
    match o
    case Vals(vs, st) => SafeVs(p, vs) && SafeState(p, st)
    case Stop(out) => SafeOut(p, out)
  }
}
