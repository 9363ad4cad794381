/**
 The main results about specialised functions (`pkg/runtime/codegen_int64.go`): a generated helper
 against the body it stands for, and the wrapper that tries the helper before the generic code.
 */
module Int64Functions {
  import opened Int64Source
  import opened GoCode
  import opened Int64Emitter
  import Int64Simulation
  import Int64Scopes

  /** A program whose specialised functions have all been generated. */
  predicate Generated(w: World) { Compiled(w) && WellTyped(w.p) }

  /** `n` arguments that are all int64: what the wrapper's type assertions test. */
  predicate Int64Args(w: World, f: FnId, args: seq<Value>) {
    f in w.p.fns && |args| == |w.p.fns[f].params| && forall v :: v in args ==> v.IntV?
  }

  /**
   With the same fuel: `(v, true)` exactly when the body evaluates to `v`, unless the helper gives
   up; it panics or runs on only where the body has no value either; and it never meets a name that is
   missing, declared before or of another type. Whether Go compiles it is `Int64Compile.HelperCompiles`.
   */
  lemma HelperCorrect(w: World, f: FnId, args: seq<Value>, fuel: nat)
    requires Generated(w) && Int64Args(w, f, args)
    ensures var ret := RunHelper(w, f, args, fuel);
            var src := EvalFn(w.p, w.p.fns[f], args, fuel);
            && (forall v :: ret == Ok(v) ==> src == Val(IntV(v)))
            && (forall v :: src == Val(v) ==> ret.NotOk? || (v.IntV? && ret == Ok(v.i)))
            && (ret.ReturnPanic? || ret.NoReturn? ==> src.Threw? || src.Timeout?)
            && !ret.BadCode?
    ensures f in w.code && Int64Scopes.WellScoped(w.code[f])
  {
    hide RunHelper, EvalFn, Compiled, WellTyped, Int64Scopes.WellScoped;
    CompiledHelper(w, f);
    Int64Simulation.SimHelper(w, f, args, fuel);
    Int64Scopes.HelperIsWellScoped(w.p, f, w.starts[f]);
  }

  lemma CompiledHelper(w: World, f: FnId)
    requires Compiled(w) && f in w.p.fns
    ensures f in w.code && f in w.starts && w.code[f] == EmitHelper(w.p, f, w.starts[f])
  {
    hide EmitHelper;
  }

  /** The generated function: `if args are int64 { if r, ok := helper(args); ok { return r } }; generic body`. */
  function RunWrapper(w: World, f: FnId, args: seq<Value>, fuel: nat): Outcome
    requires f in w.p.fns
  {
    if !Int64Args(w, f, args) then EvalFn(w.p, w.p.fns[f], args, fuel)
    else
      match RunHelper(w, f, args, fuel)
      case Ok(v) => Val(IntV(v))
      case NotOk => EvalFn(w.p, w.p.fns[f], args, fuel)
      case NoReturn => Timeout
      case _ => Threw
  }

  /** Specialisation changes no value, on any arguments. */
  lemma WrapperPreservesValues(w: World, f: FnId, args: seq<Value>, fuel: nat, v: Value)
    requires Generated(w) && f in w.p.fns
    ensures RunWrapper(w, f, args, fuel) == Val(v) <==> EvalFn(w.p, w.p.fns[f], args, fuel) == Val(v)
  {
    hide RunHelper, EvalFn, Generated, Int64Scopes.WellScoped;
    if Int64Args(w, f, args) { HelperCorrect(w, f, args, fuel); }
  }

  /** The source's fuel is only a bound: once there is an outcome, more fuel gives the same one. */
  lemma {:induction false} MoreFuel(p: Program, e: Expr, env: Env, fuel: nat, more: nat)
    requires fuel <= more && !Eval(p, e, env, fuel).Timeout?
    ensures Eval(p, e, env, more) == Eval(p, e, env, fuel)
    decreases fuel, 0, e, 0
  {
    match e
    case Do(r) => MoreFuel(p, r, env, fuel, more);
    case Let(bs, body) =>
      MoreBindings(p, bs, env, fuel, more);
      var src := EvalBindings(p, bs, env, fuel);
      if src.Vals? { MoreFuel(p, body, Bind(env, Syms(bs), src.vs), fuel, more); }
    case Loop(id, _, bs, body) =>
      MoreBindings(p, bs, env, fuel, more);
      var src := EvalBindings(p, bs, env, fuel);
      if src.Vals? { MoreLoop(p, id, Syms(bs), body, env, src.vs, fuel, more); }
    case Recur(_, args) => MoreArgs(p, args, env, fuel, more);
    case If(test, thn, els) =>
      MoreFuel(p, test, env, fuel, more);
      var src := Eval(p, test, env, fuel);
      if src.Val? { MoreFuel(p, if src.v == BoolV(false) then els else thn, env, fuel, more); }
    case Host1(_, a) => MoreFuel(p, a, env, fuel, more);
    case Host2(_, l, r) => MoreBoth(p, e, l, r, env, fuel, more);
    case CoreEquals(l, r) => MoreBoth(p, e, l, r, env, fuel, more);
    case Call(f, args) =>
      MoreArgs(p, args, env, fuel, more);
      var src := EvalArgs(p, args, env, fuel);
      if src.Vals? && fuel > 0 { MoreCall(p, f, src.vs, fuel - 1, more - 1); }
    case _ =>
  }

  lemma {:induction false} MoreBoth(p: Program, e: Expr, l: Expr, r: Expr, env: Env, fuel: nat, more: nat)
    requires fuel <= more && l < e && r < e
    requires !Eval(p, l, env, fuel).Timeout? && (Eval(p, l, env, fuel).Val? ==> !Eval(p, r, env, fuel).Timeout?)
    ensures Eval(p, l, env, more) == Eval(p, l, env, fuel)
    ensures Eval(p, l, env, fuel).Val? ==> Eval(p, r, env, more) == Eval(p, r, env, fuel)
    decreases fuel, 0, e, -1
  {
    MoreFuel(p, l, env, fuel, more);
    if Eval(p, l, env, fuel).Val? { MoreFuel(p, r, env, fuel, more); }
  }

  lemma {:induction false} MoreCall(p: Program, f: FnId, args: seq<Value>, fuel: nat, more: nat)
    requires fuel <= more && !EvalCall(p, f, args, fuel).Timeout?
    ensures EvalCall(p, f, args, more) == EvalCall(p, f, args, fuel)
    decreases fuel, 1
  {
    if f in p.fns && p.current(f) {
      MoreFuel(p, p.fns[f].body, Bind(map[], p.fns[f].params, args), fuel, more);
    }
  }

  lemma {:induction false} MoreLoop(p: Program, id: nat, syms: seq<Sym>, body: Expr, env: Env, vals: seq<Value>,
          fuel: nat, more: nat)
    requires fuel <= more && !EvalLoop(p, id, syms, body, env, vals, fuel).Timeout?
    ensures EvalLoop(p, id, syms, body, env, vals, more) == EvalLoop(p, id, syms, body, env, vals, fuel)
    decreases fuel, 0, body, 1
  {
    MoreFuel(p, body, Bind(env, syms, vals), fuel, more);
    var src := Eval(p, body, Bind(env, syms, vals), fuel);
    if src.Recurred? && src.id == id && |src.vals| == |syms| && fuel > 0 {
      MoreLoop(p, id, syms, body, env, src.vals, fuel - 1, more - 1);
    }
  }

  lemma {:induction false} MoreArgs(p: Program, es: Exprs, env: Env, fuel: nat, more: nat)
    requires fuel <= more && EvalArgs(p, es, env, fuel) != Abort(Timeout)
    ensures EvalArgs(p, es, env, more) == EvalArgs(p, es, env, fuel)
    decreases fuel, 0, es, 0
  {
    if es.Exprs? {
      MoreFuel(p, es.head, env, fuel, more);
      if Eval(p, es.head, env, fuel).Val? { MoreArgs(p, es.tail, env, fuel, more); }
    }
  }

  lemma {:induction false} MoreBindings(p: Program, bs: Bindings, env: Env, fuel: nat, more: nat)
    requires fuel <= more && EvalBindings(p, bs, env, fuel) != Abort(Timeout)
    ensures EvalBindings(p, bs, env, more) == EvalBindings(p, bs, env, fuel)
    decreases fuel, 0, bs, 0
  {
    if bs.Binding? {
      MoreFuel(p, bs.init, env, fuel, more);
      var src := Eval(p, bs.init, env, fuel);
      if src.Val? { MoreBindings(p, bs.rest, env[bs.sym := src.v], fuel, more); }
    }
  }

  /** The body has the value `v` at all, however long it takes. */
  ghost predicate Evaluates(p: Program, f: FnId, args: seq<Value>, v: Value)
    requires f in p.fns
  {
    exists fuel: nat :: EvalFn(p, p.fns[f], args, fuel) == Val(v)
  }

  /** Whatever a helper or a wrapper returns, on however much fuel, is the one value of the body. */
  lemma ReturnsTheValue(w: World, f: FnId, args: seq<Value>, fuel: nat, v: Value, u: Value)
    requires Generated(w) && f in w.p.fns && RunWrapper(w, f, args, fuel) == Val(v)
    ensures Evaluates(w.p, f, args, v)
    ensures Evaluates(w.p, f, args, u) ==> u == v
  {
    WrapperPreservesValues(w, f, args, fuel, v);
    if Evaluates(w.p, f, args, u) {
      var k: nat :| EvalFn(w.p, w.p.fns[f], args, k) == Val(u);
      var fn := w.p.fns[f];
      var most := if k < fuel then fuel else k;
      MoreFuel(w.p, fn.body, Bind(map[], fn.params, args), fuel, most);
      MoreFuel(w.p, fn.body, Bind(map[], fn.params, args), k, most);
    }
  }

  /** And a body that has a value is found by the wrapper. */
  lemma FindsTheValue(w: World, f: FnId, args: seq<Value>, v: Value)
    requires Generated(w) && f in w.p.fns && Evaluates(w.p, f, args, v)
    ensures exists fuel: nat :: RunWrapper(w, f, args, fuel) == Val(v)
  {
    var k: nat :| EvalFn(w.p, w.p.fns[f], args, k) == Val(v);
    WrapperPreservesValues(w, f, args, k, v);
  }
}
