/**
 The emitted code simulates the source: run with the same fuel, it reaches a value exactly when the
 source expression evaluates to that value, unless it gives up with `return 0, false`.
 */
module Int64Simulation {
  import opened Int64
  import opened Objects
  import opened Int64Source
  import opened GoCode
  import opened Int64Emitter

  // ---- the relation between the two states ----

  ghost predicate Match(locals: Locals, env: Env, vars: Vars) {
    forall s :: s in locals ==> MatchOne(locals[s], s, env, vars)
  }

  ghost predicate MatchOne(local: TypedLocal, s: Sym, env: Env, vars: Vars) {
    s in env && Holds(vars, local.name, env[s]) && TypeOf(env[s]) == local.typ
  }

  predicate Holds(vars: Vars, n: Name, v: Value) { n in vars && vars[n] == v }

  ghost predicate Below(vars: Vars, n: Name) { forall k :: k in vars ==> k < n }

  ghost predicate Extends(vars: Vars, next: Vars) { forall k :: k in vars ==> Holds(next, k, vars[k]) }

  ghost predicate ContextOk(w: World, c: Context, vars: Vars) {
    && c.p == w.p
    && c.self in w.p.fns
    && Holds(vars, c.helper, FnV(c.self))
    && (forall f :: f in w.p.fns[c.self].callees ==> f in c.callees && Holds(vars, c.callees[f], FnV(f)))
  }

  ghost predicate AllIntValues(vs: seq<Value>) { forall v :: v in vs ==> v.IntV? }

  // ---- what the code for an expression does ----

  /** The source does not reach a value either (with this fuel). */
  predicate Fails(src: Outcome) { src.Threw? || src.Timeout? }

  predicate FailsAll(src: Outcomes) { src.Abort? && Fails(src.outcome) }

  /** After `r`, the Go expression `g` has the value of the source, and older variables are unchanged. */
  ghost predicate Simulates(p: Program, r: Result, g: GExpr, src: Outcome, vars: Vars, next: Name, t: Type) {
    match r
    case Normal(after) =>
      && Extends(vars, after)
      && Below(after, next)
      && (match GEval(p, g, after)
          case GVal(v) => src == Val(v) && TypeOf(v) == t
          case GPanic => Fails(src)
          case GStuck => false)
    case Failed => true
    case Panicked => Fails(src)
    case OutOfFuel => Fails(src)
    case _ => false
  }

  ghost predicate SimulatesArgs(p: Program, r: Result, gs: seq<GExpr>, src: Outcomes, vars: Vars, next: Name) {
    match r
    case Normal(after) =>
      && Extends(vars, after)
      && Below(after, next)
      && (match GEvalAll(p, gs, after)
          case GVals(vs) => src == Vals(vs) && AllIntValues(vs)
          case GsPanic => FailsAll(src)
          case GsStuck => false)
    case Failed => true
    case Panicked => FailsAll(src)
    case OutOfFuel => FailsAll(src)
    case _ => false
  }

  // ---- stability of pending expressions ----

  lemma {:induction false} Stable(p: Program, g: GExpr, vars: Vars, next: Vars)
    requires Extends(vars, next) && !GEval(p, g, vars).GStuck?
    ensures GEval(p, g, next) == GEval(p, g, vars)
  {
    match g
    case GNot(a) => Stable(p, a, vars, next);
    case GOr(a, b) =>
      Stable(p, a, vars, next);
      if GEval(p, a, vars) == GVal(BoolV(false)) { Stable(p, b, vars, next); }
    case GUnary(_, a) => Stable(p, a, vars, next);
    case GBinary(_, a, b) => Stable(p, a, vars, next); Stable(p, b, vars, next);
    case GVar(n) => assert Holds(next, n, vars[n]);
    case _ =>
  }

  lemma ExtendsTrans(a: Vars, b: Vars, c: Vars)
    requires Extends(a, b) && Extends(b, c)
    ensures Extends(a, c)
  {
    forall k | k in a ensures Holds(c, k, a[k]) { assert Holds(b, k, a[k]); }
  }

  lemma MatchExtends(locals: Locals, env: Env, vars: Vars, next: Vars)
    requires Match(locals, env, vars) && Extends(vars, next)
    ensures Match(locals, env, next)
  {
    forall s | s in locals
      ensures MatchOne(locals[s], s, env, next)
    {
      assert MatchOne(locals[s], s, env, vars);
      assert Holds(next, locals[s].name, vars[locals[s].name]);
    }
  }

  lemma ContextExtends(w: World, c: Context, vars: Vars, next: Vars)
    requires ContextOk(w, c, vars) && Extends(vars, next)
    ensures ContextOk(w, c, next)
  {
    assert Holds(next, c.helper, vars[c.helper]);
    forall f | f in w.p.fns[c.self].callees
      ensures f in c.callees && Holds(next, c.callees[f], FnV(f))
    {
      assert Holds(next, c.callees[f], vars[c.callees[f]]);
    }
  }

  lemma TypesOfUpdate(locals: Locals, s: Sym, local: TypedLocal)
    ensures TypesOf(locals[s := local]) == TypesOf(locals)[s := local.typ]
  {}

  lemma MatchUpdate(locals: Locals, s: Sym, local: TypedLocal, env: Env, vars: Vars, v: Value)
    requires Match(locals, env, vars) && Holds(vars, local.name, v) && TypeOf(v) == local.typ
    ensures Match(locals[s := local], env[s := v], vars)
  {
    var inner := locals[s := local];
    forall t | t in inner
      ensures MatchOne(inner[t], t, env[s := v], vars)
    {
      if t != s { assert MatchOne(locals[t], t, env, vars); }
    }
  }

  // ---- operators ----

  lemma UnaryAgrees(p: Program, op: Op1, g: GExpr, vars: Vars, src: Outcome)
    requires match GEval(p, g, vars)
             case GVal(v) => src == Val(v) && v.IntV?
             case GPanic => Fails(src)
             case GStuck => false
    ensures var all := if src.Val? then Apply1(op, src.v) else src;
            match GEval(p, UnaryCode(op, g), vars)
            case GVal(v) => all == Val(v) && TypeOf(v) == (if op.IsZero? || op.IsPos? || op.IsNeg? then BoolT else IntT)
            case GPanic => Fails(all)
            case GStuck => false
  {
    hide Int64.CheckedAdd, Int64.CheckedSub, Int64.CheckedNegate, Int64.CheckedMultiply, Wrap, GoQuo, GoRem;
    assert GEval(p, GInt(0), vars) == GVal(IntV(0)) && GEval(p, GInt(1), vars) == GVal(IntV(1));
  }

  lemma BinaryAgrees(p: Program, op: Op2, g: GExpr, h: GExpr, vars: Vars, left: Outcome, right: Outcome)
    requires match GEval(p, g, vars)
             case GVal(v) => left == Val(v) && v.IntV?
             case GPanic => Fails(left)
             case GStuck => false
    requires match GEval(p, h, vars)
             case GVal(v) => right == Val(v) && v.IntV?
             case GPanic => Fails(right)
             case GStuck => false
    ensures var all := Combine(op, left, right);
            match GEval(p, BinaryCode(op, g, h), vars)
            case GVal(v) => all == Val(v) && TypeOf(v) == (if Numeric(op) then IntT else BoolT)
            case GPanic => Fails(all)
            case GStuck => false
  {
    hide Int64.CheckedAdd, Int64.CheckedSub, Int64.CheckedNegate, Int64.CheckedMultiply, Wrap, GoQuo, GoRem;
  }

  // ---- assembling statements ----

  /** A block that computes `src` into `result` leaves everything else as it was. */
  ghost predicate Assigns(r: Result, base: Vars, result: Name, src: Outcome, t: Type) {
    match r
    case Normal(after) => src.Val? && TypeOf(src.v) == t && after == base[result := src.v]
    case Failed => true
    case Panicked => Fails(src)
    case OutOfFuel => Fails(src)
    case _ => false
  }

  lemma AssignThenLeave(w: World, a: Emitted, vars: Vars, base: Vars, result: Name, src: Outcome, t: Type, fuel: nat)
    requires Simulates(w.p, Exec(w, a.code, vars, fuel), a.value, src, vars, a.next, t)
    requires Extends(base, vars) && result in base && TypeOf(base[result]) == t
    ensures Assigns(Leave(Exec(w, Seq(a.code, Assign(result, a.value)), vars, fuel), base), base, result, src, t)
  {
    var r := Exec(w, a.code, vars, fuel);
    if r.Normal? {
      var after := r.vars;
      ExtendsTrans(base, vars, after);
      assert Holds(after, result, base[result]);
      assert Exec(w, Seq(a.code, Assign(result, a.value)), vars, fuel) == Exec(w, Assign(result, a.value), after, fuel);
      if src.Val? { OutsideUpdate(base, after, result, src.v); }
    }
  }

  lemma OutsideUpdate(base: Vars, after: Vars, n: Name, v: Value)
    requires Extends(base, after) && n in base
    ensures Outside(after[n := v], base) == base[n := v]
  {
    forall k | k in base ensures Holds(after, k, base[k]) {}
  }

  lemma AfterDecl(w: World, n: Name, t: Type, rest: Stmt, vars: Vars, fuel: nat)
    requires n !in vars
    ensures Exec(w, Seq(Decl(n, t), rest), vars, fuel) == Exec(w, rest, vars[n := Zero(t)], fuel)
  {
    assert Exec(w, Decl(n, t), vars, fuel) == Normal(vars[n := Zero(t)]);
  }

  lemma AfterSeq(w: World, a: Stmt, b: Stmt, vars: Vars, fuel: nat)
    ensures var r := Exec(w, a, vars, fuel);
            Exec(w, Seq(a, b), vars, fuel) == if r.Normal? then Exec(w, b, r.vars, fuel) else r
  {}

  lemma DeclBlock(w: World, n: Name, t: Type, a: Stmt, rest: Stmt, vars: Vars, fuel: nat)
    requires n !in vars
    ensures var base := vars[n := Zero(t)];
            var r := Exec(w, a, base, fuel);
            Exec(w, Seq(Decl(n, t), Block(Seq(a, rest))), vars, fuel)
            == Leave(if r.Normal? then Exec(w, rest, r.vars, fuel) else r, base)
  {
    AfterDecl(w, n, t, Block(Seq(a, rest)), vars, fuel);
    AfterSeq(w, a, rest, vars[n := Zero(t)], fuel);
  }

  /** Declaring a fresh variable and assigning it simulates the expression that the variable stands for. */
  lemma DeclaredResult(p: Program, r: Result, vars: Vars, base: Vars, result: Name, src: Outcome, next: Name, t: Type)
    requires Below(vars, result) && result < next
    requires base == vars[result := Zero(t)] || (Extends(vars[result := Zero(t)], base) && Below(base, next))
    requires Assigns(r, base, result, src, t)
    ensures Simulates(p, r, GVar(result), src, vars, next, t)
  {
    if r.Normal? {
      forall k | k in vars
        ensures Holds(r.vars, k, vars[k])
      {
        assert Holds(base, k, vars[k]) by { assert k in vars[result := Zero(t)]; }
      }
    }
  }

  // ---- expressions ----

  ghost predicate Ready(w: World, c: Context, locals: Locals, env: Env, vars: Vars, n: Name) {
    Compiled(w) && WellTyped(w.p) && ContextOk(w, c, vars) && Match(locals, env, vars) && Below(vars, n)
  }

  /** `e` has type `t`, and if it calls the function it belongs to, that function has not been redefined. */
  ghost predicate Typed(c: Context, e: Expr, locals: Locals, t: Type) {
    ExprType(c.p, c.self, e, TypesOf(locals)) == Some(t) && (UsesSelf(e, c.self) ==> c.p.current(c.self))
  }

  ghost predicate Sim(w: World, c: Context, e: Expr, locals: Locals, env: Env, vars: Vars, n: Name, fuel: nat,
          t: Type) {
    var r := Emit(c, e, locals, n);
    Simulates(w.p, Exec(w, r.code, vars, fuel), r.value, Eval(w.p, e, env, fuel), vars, r.next, t)
  }

  lemma ReadyAfter(w: World, c: Context, locals: Locals, env: Env, vars: Vars, n: Name, after: Vars, next: Name)
    requires Ready(w, c, locals, env, vars, n) && Extends(vars, after) && Below(after, next)
    ensures Ready(w, c, locals, env, after, next)
  {
    ContextExtends(w, c, vars, after);
    MatchExtends(locals, env, vars, after);
  }

  lemma Declare(w: World, c: Context, locals: Locals, env: Env, vars: Vars, n: Name, typ: Type)
    requires Ready(w, c, locals, env, vars, n)
    ensures var base := vars[n := Zero(typ)];
            n !in vars && Below(vars, n) && Extends(vars, base) && Ready(w, c, locals, env, base, n + 1)
  {
    hide Compiled, WellTyped, ContextOk, Match;
    ReadyAfter(w, c, locals, env, vars, n, vars[n := Zero(typ)], n + 1);
  }

  lemma {:induction false} SimExpr(w: World, c: Context, e: Expr, locals: Locals, env: Env, vars: Vars, n: Name,
          fuel: nat, t: Type)
    requires Ready(w, c, locals, env, vars, n) && Typed(c, e, locals, t)
    ensures Sim(w, c, e, locals, env, vars, n, fuel, t)
    decreases fuel, 0, e, 3
  {
    hide *;
    match e
    case Do(ret) =>
      UnwrapDo(w, c, ret, locals, env, vars, n, fuel, t);
      SimExpr(w, c, ret, locals, env, vars, n, fuel, t);
    case Host1(_, _) => SimHost1(w, c, e, locals, env, vars, n, fuel, t);
    case Host2(_, _, _) => SimHost2(w, c, e, locals, env, vars, n, fuel, t);
    case CoreEquals(_, _) => SimHost2(w, c, e, locals, env, vars, n, fuel, t);
    case If(_, _, _) => SimIf(w, c, e, locals, env, vars, n, fuel, t);
    case Let(_, _) => SimLet(w, c, e, locals, env, vars, n, fuel, t);
    case Loop(_, _, _, _) => SimLoop(w, c, e, locals, env, vars, n, fuel, t);
    case Call(_, _) => SimCall(w, c, e, locals, env, vars, n, fuel, t);
    case Recur(_, _) => NotTyped(c, e, locals, t);
    case _ => SimLeaf(w, c, e, locals, env, vars, n, fuel, t);
  }

  lemma NotTyped(c: Context, e: Expr, locals: Locals, t: Type)
    ensures e.Recur? ==> !Typed(c, e, locals, t)
  {}

  lemma SimLeaf(w: World, c: Context, e: Expr, locals: Locals, env: Env, vars: Vars, n: Name, fuel: nat, t: Type)
    requires Ready(w, c, locals, env, vars, n) && Typed(c, e, locals, t)
    requires e.IntLit? || e.BoolLit? || e.Local?
    ensures Sim(w, c, e, locals, env, vars, n, fuel, t)
  {
    hide Compiled, WellTyped, ContextOk;
    if e.Local? { assert MatchOne(locals[e.sym], e.sym, env, vars); }
  }

  lemma UnwrapDo(w: World, c: Context, ret: Expr, locals: Locals, env: Env, vars: Vars, n: Name, fuel: nat, t: Type)
    requires Typed(c, Do(ret), locals, t)
    ensures Typed(c, ret, locals, t)
    ensures Sim(w, c, Do(ret), locals, env, vars, n, fuel, t) == Sim(w, c, ret, locals, env, vars, n, fuel, t)
  {
    hide Exec, Simulates;
  }

  lemma {:induction false} SimHost1(w: World, c: Context, e: Expr, locals: Locals, env: Env, vars: Vars, n: Name,
          fuel: nat, t: Type)
    requires Ready(w, c, locals, env, vars, n) && Typed(c, e, locals, t) && e.Host1?
    ensures Sim(w, c, e, locals, env, vars, n, fuel, t)
    decreases fuel, 0, e, 2
  {
    hide Exec, GEval, Apply1, UnaryCode, Ready;
    var a := Emit(c, e.arg, locals, n);
    SimExpr(w, c, e.arg, locals, env, vars, n, fuel, IntT);
    var r := Exec(w, a.code, vars, fuel);
    if r.Normal? { UnaryAgrees(w.p, e.op1, a.value, r.vars, Eval(w.p, e.arg, env, fuel)); }
  }

  /** The left value may still be a pending expression while the right operand's statements run. */
  lemma {:induction false} SimPair(w: World, c: Context, e: Expr, op: Op2, left: Expr, right: Expr, locals: Locals,
          env: Env, vars: Vars, n: Name, fuel: nat)
    requires Ready(w, c, locals, env, vars, n) && left < e && right < e
    requires Typed(c, left, locals, IntT) && Typed(c, right, locals, IntT)
    ensures var a := Emit(c, left, locals, n);
            var b := Emit(c, right, locals, a.next);
            Simulates(w.p, Exec(w, Seq(a.code, b.code), vars, fuel), BinaryCode(op, a.value, b.value),
                      Combine(op, Eval(w.p, left, env, fuel), Eval(w.p, right, env, fuel)), vars, b.next,
                      if Numeric(op) then IntT else BoolT)
    decreases fuel, 0, e, 1
  {
    hide Emit, Eval, Typed, Ready, GEval, BinaryCode, Apply2;
    var a := Emit(c, left, locals, n);
    var b := Emit(c, right, locals, a.next);
    SimExpr(w, c, left, locals, env, vars, n, fuel, IntT);
    var r := Exec(w, a.code, vars, fuel);
    if r.Normal? {
      ReadyAfter(w, c, locals, env, vars, n, r.vars, a.next);
      SimExpr(w, c, right, locals, env, r.vars, a.next, fuel, IntT);
      var r2 := Exec(w, b.code, r.vars, fuel);
      if r2.Normal? {
        ExtendsTrans(vars, r.vars, r2.vars);
        Stable(w.p, a.value, r.vars, r2.vars);
        BinaryAgrees(w.p, op, a.value, b.value, r2.vars, Eval(w.p, left, env, fuel), Eval(w.p, right, env, fuel));
      }
    }
  }

  lemma {:induction false} SimHost2(w: World, c: Context, e: Expr, locals: Locals, env: Env, vars: Vars, n: Name,
          fuel: nat, t: Type)
    requires Ready(w, c, locals, env, vars, n) && Typed(c, e, locals, t) && (e.Host2? || e.CoreEquals?)
    ensures Sim(w, c, e, locals, env, vars, n, fuel, t)
    decreases fuel, 0, e, 2
  {
    hide Ready, Simulates, Exec, Combine;
    SimPair(w, c, e, if e.Host2? then e.op2 else Equiv, e.left, e.right, locals, env, vars, n, fuel);
  }

  lemma {:induction false} SimIf(w: World, c: Context, e: Expr, locals: Locals, env: Env, vars: Vars, n: Name,
          fuel: nat, t: Type)
    requires Ready(w, c, locals, env, vars, n) && Typed(c, e, locals, t) && e.If?
    ensures Sim(w, c, e, locals, env, vars, n, fuel, t)
    decreases fuel, 0, e, 2
  {
    hide Ready, GEval, Typed, Emit, Eval, Exec, Extends, Below, TypesOf;
    var base := vars[n := Zero(t)];
    Declare(w, c, locals, env, vars, n, t);
    IfParts(w.p, c, e, locals, env, n, t, fuel);
    var q := Emit(c, e.test, locals, n + 1);
    var a := Emit(c, e.thn, locals, q.next);
    var b := Emit(c, e.els, locals, a.next);
    SimExpr(w, c, e.test, locals, env, base, n + 1, fuel, BoolT);
    IfCode(w, q, a, b, n, t, vars, fuel);
    var r := Exec(w, q.code, base, fuel);
    if r.Normal? {
      var mid := r.vars;
      ReadyAfter(w, c, locals, env, base, n + 1, mid, q.next);
      ReadyLater(w, c, locals, env, mid, q.next, a.next);
      SimExpr(w, c, e.thn, locals, env, mid, q.next, fuel, t);
      SimExpr(w, c, e.els, locals, env, mid, a.next, fuel, t);
      SimAssign(w, a, n, t, base, mid, Eval(w.p, e.thn, env, fuel), fuel);
      SimAssign(w, b, n, t, base, mid, Eval(w.p, e.els, env, fuel), fuel);
      SimBranch(w, q.value, a, b, n, mid, fuel, Eval(w.p, e.test, env, fuel), Eval(w.p, e.thn, env, fuel),
        Eval(w.p, e.els, env, fuel), t);
      ReadyLater(w, c, locals, env, mid, q.next, b.next);
      SameProgram(w, c, locals, env, mid, b.next);
      DeclaredResult(w.p, Exec(w, Emit(c, e, locals, n).code, vars, fuel), vars, mid, n, Eval(w.p, e, env, fuel),
        b.next, t);
    }
  }

  lemma SimAssign(w: World, a: Emitted, n: Name, t: Type, base: Vars, mid: Vars, src: Outcome, fuel: nat)
    requires Simulates(w.p, Exec(w, a.code, mid, fuel), a.value, src, mid, a.next, t)
    requires Extends(base, mid) && Holds(base, n, Zero(t))
    ensures Assigns(Leave(Exec(w, Seq(a.code, Assign(n, a.value)), mid, fuel), mid), mid, n, src, t)
  {
    hide Simulates, Assigns, Exec, Leave;
    assert Holds(mid, n, base[n]);
    assert Extends(mid, mid);
    AssignThenLeave(w, a, mid, mid, n, src, t, fuel);
  }

  lemma IfParts(p: Program, c: Context, e: Expr, locals: Locals, env: Env, n: Name, t: Type, fuel: nat)
    requires e.If? && Typed(c, e, locals, t)
    ensures Typed(c, e.test, locals, BoolT) && Typed(c, e.thn, locals, t) && Typed(c, e.els, locals, t)
    ensures var q := Emit(c, e.test, locals, n + 1);
            var a := Emit(c, e.thn, locals, q.next);
            var b := Emit(c, e.els, locals, a.next);
            var branch := If2(q.value, Seq(a.code, Assign(n, a.value)), Seq(b.code, Assign(n, b.value)));
            Emit(c, e, locals, n) == Emitted(Seq(Decl(n, t), Seq(q.code, branch)), GVar(n), b.next)
    ensures var src := Eval(p, e.test, env, fuel);
            Eval(p, e, env, fuel) == if !src.Val? then src
                                     else Eval(p, if src.v == BoolV(false) then e.els else e.thn, env, fuel)
  {
    hide TypesOf;
  }

  lemma IfCode(w: World, q: Emitted, a: Emitted, b: Emitted, n: Name, t: Type, vars: Vars, fuel: nat)
    requires n !in vars
    ensures var branch := If2(q.value, Seq(a.code, Assign(n, a.value)), Seq(b.code, Assign(n, b.value)));
            var r := Exec(w, q.code, vars[n := Zero(t)], fuel);
            Exec(w, Seq(Decl(n, t), Seq(q.code, branch)), vars, fuel) == if r.Normal?
              then Exec(w, branch, r.vars, fuel) else r
  {
    hide *;
    var branch := If2(q.value, Seq(a.code, Assign(n, a.value)), Seq(b.code, Assign(n, b.value)));
    AfterDecl(w, n, t, Seq(q.code, branch), vars, fuel);
    AfterSeq(w, q.code, branch, vars[n := Zero(t)], fuel);
  }

  lemma SimBranch(w: World, test: GExpr, a: Emitted, b: Emitted, n: Name, mid: Vars, fuel: nat, srcTest: Outcome,
          thn: Outcome, els: Outcome, t: Type)
    requires match GEval(w.p, test, mid)
             case GVal(v) => srcTest == Val(v) && v.BoolV?
             case GPanic => Fails(srcTest)
             case GStuck => false
    requires Assigns(Leave(Exec(w, Seq(a.code, Assign(n, a.value)), mid, fuel), mid), mid, n, thn, t)
    requires Assigns(Leave(Exec(w, Seq(b.code, Assign(n, b.value)), mid, fuel), mid), mid, n, els, t)
    ensures var src := if !srcTest.Val? then srcTest else if srcTest.v == BoolV(false) then els else thn;
            Assigns(Exec(w, If2(test, Seq(a.code, Assign(n, a.value)), Seq(b.code, Assign(n, b.value))), mid, fuel),
              mid, n, src, t)
  {}

  // ---- bindings and arguments ----

  ghost predicate TypedBindings(c: Context, bs: Bindings, locals: Locals, numericOnly: bool) {
    TypesAfter(c.p, c.self, bs, TypesOf(locals), numericOnly).Some? && (UsesSelfB(bs, c.self) ==> c.p.current(c.self))
  }

  predicate Increasing(names: seq<Name>, lo: Name, hi: Name) {
    && (forall i :: 0 <= i < |names| ==> lo <= names[i] < hi)
    && (forall i, j :: 0 <= i < j < |names| ==> names[i] < names[j])
  }

  ghost predicate HoldAll(vars: Vars, names: seq<Name>, vs: seq<Value>) {
    |names| == |vs| && forall i :: 0 <= i < |names| ==> Holds(vars, names[i], vs[i])
  }

  /** The code of a binding list defines every name and leaves the locals in scope of the body. */
  ghost predicate SimulatesBindings(w: World, c: Context, r: Result, b: EmittedBindings, bs: Bindings,
          src: Outcomes, env: Env, vars: Vars, numericOnly: bool) {
    match r
    case Normal(after) =>
      && Extends(vars, after)
      && src.Vals?
      && HoldAll(after, b.names, src.vs)
      && |src.vs| == |Syms(bs)|
      && (numericOnly ==> AllIntValues(src.vs))
      && Ready(w, c, b.locals, Bind(env, Syms(bs), src.vs), after, b.next)
    case Failed => true
    case Panicked => FailsAll(src)
    case OutOfFuel => FailsAll(src)
    case _ => false
  }

  lemma IncreasingCons(x: Name, names: seq<Name>, lo: Name, hi: Name)
    requires lo <= x < hi && Increasing(names, x + 1, hi)
    ensures Increasing([x] + names, lo, hi)
  {}

  lemma {:induction false} BindingNames(c: Context, bs: Bindings, locals: Locals, n: Name)
    ensures var b := EmitBindings(c, bs, locals, n);
            Increasing(b.names, n, b.next) && |b.names| == |Syms(bs)|
  {
    hide Emit, ExprType, Increasing;
    if bs.Binding? {
      var a := Emit(c, bs.init, locals, n);
      var local := TypedLocal(a.next, TypeOr(ExprType(c.p, c.self, bs.init, TypesOf(locals))));
      var b := EmitBindings(c, bs.rest, locals[bs.sym := local], a.next + 1);
      BindingNames(c, bs.rest, locals[bs.sym := local], a.next + 1);
      IncreasingCons(a.next, b.names, n, b.next);
    } else {
      NoNames(n);
    }
  }

  lemma NoNames(n: Name)
    ensures Increasing([], n, n)
  {}

  lemma {:induction false} BindingTypes(c: Context, bs: Bindings, locals: Locals, n: Name, numericOnly: bool)
    requires TypedBindings(c, bs, locals, numericOnly)
    ensures TypesAfter(c.p, c.self, bs, TypesOf(locals), numericOnly)
            == Some(TypesOf(EmitBindings(c, bs, locals, n).locals))
  {
    hide Emit, ExprType, UsesSelf, TypesOf;
    if bs.Binding? {
      var a := Emit(c, bs.init, locals, n);
      var local := TypedLocal(a.next, TypeOr(ExprType(c.p, c.self, bs.init, TypesOf(locals))));
      TypesOfUpdate(locals, bs.sym, local);
      BindingTypes(c, bs.rest, locals[bs.sym := local], a.next + 1, numericOnly);
    }
  }

  lemma {:induction false} SimBindings(w: World, c: Context, bs: Bindings, locals: Locals, env: Env, vars: Vars,
          n: Name, fuel: nat, numericOnly: bool)
    requires Ready(w, c, locals, env, vars, n) && TypedBindings(c, bs, locals, numericOnly)
    ensures var b := EmitBindings(c, bs, locals, n);
            SimulatesBindings(w, c, Exec(w, b.code, vars, fuel), b, bs, EvalBindings(w.p, bs, env, fuel), env, vars,
              numericOnly)
    decreases fuel, 0, bs, 3
  {
    hide *;
    if bs.Binding? {
      var typ := ExprType(c.p, c.self, bs.init, TypesOf(locals));
      var a := Emit(c, bs.init, locals, n);
      var local := TypedLocal(a.next, TypeOr(typ));
      var b := EmitBindings(c, bs.rest, locals[bs.sym := local], a.next + 1);
      FirstBinding(c, bs, locals, n, numericOnly);
      SimExpr(w, c, bs.init, locals, env, vars, n, fuel, local.typ);
      DefineCode(w, a, b.code, vars, fuel);
      EvalFirst(w.p, bs, env, fuel);
      var r := Exec(w, a.code, vars, fuel);
      var src := Eval(w.p, bs.init, env, fuel);
      InitCases(w, c, a, EmitBindings(c, bs, locals, n), b.code, bs, src, EvalBindings(w.p, bs, env, fuel), env,
        locals, vars, n, fuel, local.typ, numericOnly);
      if r.Normal? && GEval(w.p, a.value, r.vars).GVal? {
        var mid := r.vars[a.next := src.v];
        ReadyToBind(w, c, locals, env, vars, n, r.vars, bs.sym, local, src.v);
        SimBindings(w, c, bs.rest, locals[bs.sym := local], env[bs.sym := src.v], mid, a.next + 1, fuel, numericOnly);
        ConsBinding(w, c, Exec(w, b.code, mid, fuel), b, EmitBindings(c, bs, locals, n), bs,
          EvalBindings(w.p, bs.rest, env[bs.sym := src.v], fuel), env, vars, mid, a.next, src.v, numericOnly);
      }
    } else {
      SimNoBindings(w, c, bs, locals, env, vars, n, fuel, numericOnly);
    }
  }

  lemma FirstBinding(c: Context, bs: Bindings, locals: Locals, n: Name, numericOnly: bool)
    requires bs.Binding? && TypedBindings(c, bs, locals, numericOnly)
    ensures var t := TypeOr(ExprType(c.p, c.self, bs.init, TypesOf(locals)));
            var a := Emit(c, bs.init, locals, n);
            var local := TypedLocal(a.next, t);
            var b := EmitBindings(c, bs.rest, locals[bs.sym := local], a.next + 1);
            && Typed(c, bs.init, locals, t)
            && (numericOnly ==> t == IntT)
            && TypedBindings(c, bs.rest, locals[bs.sym := local], numericOnly)
            && EmitBindings(c, bs, locals, n)
            == b.(names := [a.next] + b.names, code := Seq(Seq(a.code, Define(a.next, a.value)), b.code))
  {
    var t := TypeOr(ExprType(c.p, c.self, bs.init, TypesOf(locals)));
    TypesOfUpdate(locals, bs.sym, TypedLocal(Emit(c, bs.init, locals, n).next, t));
  }

  lemma EvalFirst(p: Program, bs: Bindings, env: Env, fuel: nat)
    requires bs.Binding?
    ensures var src := Eval(p, bs.init, env, fuel);
            EvalBindings(p, bs, env, fuel)
            == if !src.Val? then Abort(src)
               else
                 var rest := EvalBindings(p, bs.rest, env[bs.sym := src.v], fuel);
                 if rest.Vals? then Vals([src.v] + rest.vs) else rest
  {}

  lemma SimNoBindings(w: World, c: Context, bs: Bindings, locals: Locals, env: Env, vars: Vars, n: Name, fuel: nat,
          numericOnly: bool)
    requires Ready(w, c, locals, env, vars, n) && bs.NoBindings?
    ensures var b := EmitBindings(c, bs, locals, n);
            SimulatesBindings(w, c, Exec(w, b.code, vars, fuel), b, bs, EvalBindings(w.p, bs, env, fuel), env, vars,
              numericOnly)
  {
    hide Ready;
  }

  lemma InitCases(w: World, c: Context, a: Emitted, b: EmittedBindings, rest: Stmt, bs: Bindings, src: Outcome,
          all: Outcomes, env: Env, locals: Locals, vars: Vars, n: Name, fuel: nat, t: Type, numericOnly: bool)
    requires bs.Binding? && a == Emit(c, bs.init, locals, n) && src == Eval(w.p, bs.init, env, fuel)
    requires Sim(w, c, bs.init, locals, env, vars, n, fuel, t)
    requires b.code == Seq(Seq(a.code, Define(a.next, a.value)), rest)
    requires !src.Val? ==> all == Abort(src)
    ensures var r := Exec(w, a.code, vars, fuel);
            if r.Normal? && GEval(w.p, a.value, r.vars).GVal? then
              && GEval(w.p, a.value, r.vars) == GVal(src.v) && src.Val? && TypeOf(src.v) == t
              && (t == IntT ==> src.v.IntV?)
              && Extends(vars, r.vars) && Below(r.vars, a.next) && a.next !in r.vars
              && Exec(w, b.code, vars, fuel) == Exec(w, rest, r.vars[a.next := src.v], fuel)
            else SimulatesBindings(w, c, Exec(w, b.code, vars, fuel), b, bs, all, env, vars, numericOnly)
  {
    hide Exec, GEval, Ready, Extends, Emit, Eval;
    DefineCode(w, a, rest, vars, fuel);
  }

  lemma ConsBinding(w: World, c: Context, r: Result, b: EmittedBindings, all: EmittedBindings, bs: Bindings,
          src: Outcomes, env: Env, vars: Vars, mid: Vars, name: Name, v: Value, numericOnly: bool)
    requires all == b.(names := [name] + b.names, code := all.code)
    requires bs.Binding? && Extends(vars, mid) && Holds(mid, name, v) && (numericOnly ==> v.IntV?)
    requires SimulatesBindings(w, c, r, b, bs.rest, src, env[bs.sym := v], mid, numericOnly)
    ensures SimulatesBindings(w, c, r, all, bs, if src.Vals? then Vals([v] + src.vs) else src, env, vars, numericOnly)
  {
    hide Ready;
    if r.Normal? {
      ExtendsTrans(vars, mid, r.vars);
      assert Holds(r.vars, name, mid[name]);
      assert ([v] + src.vs)[1..] == src.vs && Syms(bs)[1..] == Syms(bs.rest);
    }
  }

  lemma DefineCode(w: World, a: Emitted, rest: Stmt, vars: Vars, fuel: nat)
    ensures var r := Exec(w, a.code, vars, fuel);
            Exec(w, Seq(Seq(a.code, Define(a.next, a.value)), rest), vars, fuel)
            == if !r.Normal? then r
               else match GEval(w.p, a.value, r.vars)
                    case GVal(v) => if a.next in r.vars then Stuck else Exec(w, rest, r.vars[a.next := v], fuel)
                    case GPanic => Panicked
                    case GStuck => Stuck
  {
    var define := Define(a.next, a.value);
    AfterSeq(w, Seq(a.code, define), rest, vars, fuel);
    AfterSeq(w, a.code, define, vars, fuel);
  }

  lemma ReadyToBind(w: World, c: Context, locals: Locals, env: Env, vars: Vars, n: Name, after: Vars, s: Sym,
          local: TypedLocal, v: Value)
    requires Ready(w, c, locals, env, vars, n) && Extends(vars, after) && Below(after, local.name) && TypeOf(v)
             == local.typ
    ensures Ready(w, c, locals[s := local], env[s := v], after[local.name := v], local.name + 1)
    ensures Extends(vars, after[local.name := v]) && Holds(after[local.name := v], local.name, v)
            && local.name !in after
  {
    hide Compiled, WellTyped, ContextOk, Match;
    var next := after[local.name := v];
    assert Extends(after, next) && Extends(vars, next);
    ReadyAfter(w, c, locals, env, vars, n, next, local.name + 1);
    MatchUpdate(locals, s, local, env, next, v);
  }

  lemma {:induction false} SimLet(w: World, c: Context, e: Expr, locals: Locals, env: Env, vars: Vars, n: Name,
          fuel: nat, t: Type)
    requires Ready(w, c, locals, env, vars, n) && Typed(c, e, locals, t) && e.Let?
    ensures Sim(w, c, e, locals, env, vars, n, fuel, t)
    decreases fuel, 0, e, 2
  {
    hide Ready, GEval, TypesAfter, EmitBindings, EvalBindings, Exec, Below, Extends;
    var base := vars[n := Zero(t)];
    Declare(w, c, locals, env, vars, n, t);
    var b := EmitBindings(c, e.bindings, locals, n + 1);
    var a := Emit(c, e.body, b.locals, b.next);
    var rest := Seq(a.code, Assign(n, a.value));
    SimBindings(w, c, e.bindings, locals, env, base, n + 1, fuel, false);
    BindingTypes(c, e.bindings, locals, n + 1, false);
    DeclBlock(w, n, t, b.code, rest, vars, fuel);
    var r := Exec(w, b.code, base, fuel);
    if r.Normal? {
      var mid := r.vars;
      var inner := Bind(env, Syms(e.bindings), EvalBindings(w.p, e.bindings, env, fuel).vs);
      var src := Eval(w.p, e.body, inner, fuel);
      SimExpr(w, c, e.body, b.locals, inner, mid, b.next, fuel, t);
      AssignThenLeave(w, a, mid, base, n, src, t, fuel);
      DeclaredResult(w.p, Leave(Exec(w, rest, mid, fuel), base), vars, base, n, src, a.next, t);
    }
  }

  // ---- calls ----

  ghost predicate TypedArgs(c: Context, es: Exprs, locals: Locals) {
    AllInts(c.p, c.self, es, TypesOf(locals)) && (UsesSelfA(es, c.self) ==> c.p.current(c.self))
  }

  lemma {:induction false} SimArgs(w: World, c: Context, es: Exprs, locals: Locals, env: Env, vars: Vars, n: Name,
          fuel: nat)
    requires Ready(w, c, locals, env, vars, n) && TypedArgs(c, es, locals)
    ensures var a := EmitArgs(c, es, locals, n);
            SimulatesArgs(w.p, Exec(w, a.code, vars, fuel), a.values, EvalArgs(w.p, es, env, fuel), vars, a.next)
    decreases fuel, 0, es, 3
  {
    hide Emit, Eval, ExprType, UsesSelf, Ready, GEval, TypesOf, Below, Extends;
    if es.Exprs? {
      var a := Emit(c, es.head, locals, n);
      var b := EmitArgs(c, es.tail, locals, a.next);
      SimExpr(w, c, es.head, locals, env, vars, n, fuel, IntT);
      AfterSeq(w, a.code, b.code, vars, fuel);
      var r := Exec(w, a.code, vars, fuel);
      if r.Normal? {
        ReadyAfter(w, c, locals, env, vars, n, r.vars, a.next);
        SimArgs(w, c, es.tail, locals, env, r.vars, a.next, fuel);
        ConsArgs(w.p, r.vars, Exec(w, b.code, r.vars, fuel), a.value, b, Eval(w.p, es.head, env, fuel),
          EvalArgs(w.p, es.tail, env, fuel), vars);
      }
    } else {
      SameProgram(w, c, locals, env, vars, n);
      NoArgs(w, vars, n);
    }
  }

  lemma NoArgs(w: World, vars: Vars, n: Name)
    requires Below(vars, n)
    ensures SimulatesArgs(w.p, Normal(vars), [], Vals([]), vars, n)
  {}

  lemma ConsArgs(p: Program, mid: Vars, r: Result, g: GExpr, b: EmittedArgs, src: Outcome, srcs: Outcomes, vars: Vars)
    requires Extends(vars, mid)
    requires match GEval(p, g, mid)
             case GVal(v) => src == Val(v) && v.IntV?
             case GPanic => Fails(src)
             case GStuck => false
    requires SimulatesArgs(p, r, b.values, srcs, mid, b.next)
    ensures SimulatesArgs(p, r, [g] + b.values,
                          if !src.Val? then Abort(src) else if srcs.Vals? then Vals([src.v] + srcs.vs)
                              else srcs, vars, b.next)
  {
    hide GEval;
    if r.Normal? {
      ExtendsTrans(vars, mid, r.vars);
      Stable(p, g, mid, r.vars);
      var gs := [g] + b.values;
      assert gs[0] == g && gs[1..] == b.values;
    }
  }

  lemma GuardCases(w: World, c: Context, f: FnId, vars: Vars, fuel: nat)
    requires WellTyped(w.p) && c.p == w.p && f in w.p.fns && (f == c.self ==> w.p.current(f))
    ensures var r := Exec(w, CalleeGuard(c, f), vars, fuel);
            r == Failed || (r == Normal(vars) && w.p.current(f))
  {}

  /** A helper returns the value of its function's body, gives up, or fails as the body does. */
  ghost predicate Returns(ret: Return, src: Outcome) {
    match ret
    case Ok(v) => src == Val(IntV(v))
    case NotOk => true
    case ReturnPanic => Fails(src)
    case NoReturn => Fails(src)
    case BadCode => false
  }

  lemma {:induction false} SimCall(w: World, c: Context, e: Expr, locals: Locals, env: Env, vars: Vars, n: Name,
          fuel: nat, t: Type)
    requires Ready(w, c, locals, env, vars, n) && Typed(c, e, locals, t) && e.Call?
    ensures Sim(w, c, e, locals, env, vars, n, fuel, t)
    decreases fuel, 0, e, 2
  {
    hide Ready, GEval, GEvalAll, Exec, EvalArgs, EmitArgs, RunHelper, EvalFn, AllInts, UsesSelfA, Compiled,
        WellTyped, Extends, Below;
    var f, p := e.f, w.p;
    var a := EmitArgs(c, e.args, locals, n);
    SameProgram(w, c, locals, env, vars, n);
    SimArgs(w, c, e.args, locals, env, vars, n, fuel);
    var src := EvalArgs(p, e.args, env, fuel);
    var call := CallHelper(a.next, a.next + 1, HelperName(c, f), a.values);
    var test := If1(GNot(GVar(a.next + 1)), ReturnFail);
    var rest := Seq(call, test);
    AfterSeq(w, a.code, Seq(CalleeGuard(c, f), rest), vars, fuel);
    var r := Exec(w, a.code, vars, fuel);
    if r.Normal? {
      var mid := r.vars;
      AfterSeq(w, CalleeGuard(c, f), rest, mid, fuel);
      GuardCases(w, c, f, mid, fuel);
      if Exec(w, CalleeGuard(c, f), mid, fuel) != Failed {
        ReadyAfter(w, c, locals, env, vars, n, mid, a.next);
        CallableHelper(w, c, f, locals, env, mid, a.next);
        if GEvalAll(p, a.values, mid).GVals? && fuel > 0 {
          SimHelper(w, f, src.vs, fuel - 1);
        }
        CallCases(w, a, call, test, f, mid, src, fuel);
        if Exec(w, rest, mid, fuel).Normal? { ExtendsTrans(vars, mid, Exec(w, rest, mid, fuel).vars); }
      }
    }
  }

  lemma SameProgram(w: World, c: Context, locals: Locals, env: Env, vars: Vars, n: Name)
    requires Ready(w, c, locals, env, vars, n)
    ensures c.p == w.p && c.self in w.p.fns && WellTyped(w.p) && Compiled(w) && Below(vars, n)
  {}

  lemma CallableHelper(w: World, c: Context, f: FnId, locals: Locals, env: Env, vars: Vars, n: Name)
    requires Ready(w, c, locals, env, vars, n) && Callable(c.p, c.self, f)
    ensures Holds(vars, HelperName(c, f), FnV(f)) && n !in vars && n + 1 !in vars
  {}

  lemma CallCases(w: World, a: EmittedArgs, call: Stmt, test: Stmt, f: FnId, mid: Vars, src: Outcomes, fuel: nat)
    requires call.CallHelper? && call.result == a.next && call.ok == a.next + 1 && call.args == a.values
    requires test == If1(GNot(GVar(a.next + 1)), ReturnFail)
    requires Below(mid, a.next) && Holds(mid, call.helper, FnV(f)) && f in w.p.fns && w.p.current(f)
    requires match GEvalAll(w.p, a.values, mid)
             case GVals(vs) => src == Vals(vs)
             case GsPanic => FailsAll(src)
             case GsStuck => false
    requires src.Vals? && fuel > 0 && GEvalAll(w.p, a.values, mid).GVals?
             ==> Returns(RunHelper(w, f, src.vs, fuel - 1), EvalFn(w.p, w.p.fns[f], src.vs, fuel - 1))
    ensures Simulates(w.p, Exec(w, Seq(call, test), mid, fuel), GVar(a.next),
                      if src.Abort? then src.outcome else if fuel == 0 then Timeout
                          else EvalCall(w.p, f, src.vs, fuel - 1),
                      mid, a.next + 2, IntT)
  {
    hide GEvalAll, RunHelper, EvalFn;
    AfterSeq(w, call, test, mid, fuel);
    var r := Exec(w, call, mid, fuel);
    if r.Normal? {
      var after := r.vars;
      assert GEval(w.p, GVar(a.next + 1), after) == GVal(after[a.next + 1]);
      assert Exec(w, test, after, fuel) == if after[a.next + 1] == BoolV(false) then Failed else Normal(after);
    }
  }

  /** The theorem for one function: its helper against its body. */
  lemma {:induction false} SimHelper(w: World, f: FnId, args: seq<Value>, fuel: nat)
    requires Compiled(w) && WellTyped(w.p) && f in w.p.fns && |args| == |w.p.fns[f].params| && AllIntValues(args)
    ensures Returns(RunHelper(w, f, args, fuel), EvalFn(w.p, w.p.fns[f], args, fuel))
    decreases fuel, 1
  {
    hide Emit, Eval, ExprType, Match, UsesSelf, Exec, GEval, Int32Guards, CalleeCode, CalleeNames, Bind, Below, Extends;
    var fn, n := w.p.fns[f], w.starts[f];
    var k := |fn.params|;
    var h := EmitHelper(w.p, f, n);
    var c := HelperContext(w.p, f, n);
    var locals := ParamLocals(fn.params, h.params);
    var env := Bind(map[], fn.params, args);
    var lo := n + 1 + k + |fn.callees|;
    var a := Emit(c, fn.body, locals, lo);
    var entry := EntryVars(h, f, args);
    var guards := if fn.int32Params then Int32Guards(h.params) else Skip;
    var selfGuard := if UsesSelf(fn.body, f) && fn.guarded then If1(GStale(f), ReturnFail) else Skip;
    var callees := CalleeCode(fn.callees, n + 1 + k);
    EntryHolds(h, f, args, n);
    ParamTypesMatch(fn.params, h.params);
    MatchParams(fn.params, h.params, locals, env, entry, args);
    HelperGuards(w, guards, fn.int32Params, h.params, selfGuard, f, entry, fuel);
    SimCallees(w, fn.callees, n + 1 + k, entry, fuel);
    AfterSeq(w, guards, Seq(selfGuard, Seq(callees, a.code)), entry, fuel);
    AfterSeq(w, selfGuard, Seq(callees, a.code), entry, fuel);
    AfterSeq(w, callees, a.code, entry, fuel);
    if Exec(w, guards, entry, fuel).Normal? && Exec(w, selfGuard, entry, fuel).Normal? {
      var vars := Exec(w, callees, entry, fuel).vars;
      assert Holds(vars, n, FnV(f)) by { ExtendsAt(entry, vars, n); }
      MatchExtends(locals, env, entry, vars);
      SimExpr(w, c, fn.body, locals, env, vars, lo, fuel, IntT);
    }
  }

  lemma ExtendsAt(vars: Vars, next: Vars, k: Name)
    requires Extends(vars, next) && k in vars
    ensures Holds(next, k, vars[k])
  {}

  lemma {:induction false} BindNames(vars: Vars, names: seq<Name>, vs: seq<Value>)
    requires Distinct(names) && |names| == |vs|
    ensures var after := Bind(vars, names, vs);
            && HoldAll(after, names, vs)
            && KeepsBut(vars, after, names)
            && (forall k :: k in after ==> k in vars || k in names)
    decreases |names|
  {
    if names != [] {
      var mid := vars[names[0] := vs[0]];
      BindNames(mid, names[1..], vs[1..]);
      var after := Bind(mid, names[1..], vs[1..]);
      assert names[0] !in names[1..];
      assert Holds(after, names[0], mid[names[0]]);
      forall i | 0 <= i < |names|
        ensures Holds(after, names[i], vs[i])
      {
        if i > 0 { assert Holds(after, names[1..][i - 1], vs[1..][i - 1]); }
      }
      forall k | k in vars && k !in names
        ensures Holds(after, k, vars[k])
      {
        assert k !in names[1..];
        assert Holds(after, k, mid[k]);
      }
    }
  }

  lemma EntryHolds(h: Helper, f: FnId, args: seq<Value>, n: Name)
    requires h.name == n && h.params == Fresh(n + 1, |args|)
    ensures var entry := EntryVars(h, f, args);
            Holds(entry, n, FnV(f)) && HoldAll(entry, h.params, args) && Below(entry, n + 1 + |args|)
  {
    hide Bind;
    var start: Vars := map[n := FnV(f)];
    BindNames(start, h.params, args);
    assert Holds(EntryVars(h, f, args), n, start[n]);
  }

  lemma ParamTypesMatch(params: seq<Sym>, names: seq<Name>)
    requires |params| == |names|
    ensures TypesOf(ParamLocals(params, names)) == ParamTypes(params)
  {
    var tls := seq(|names|, i requires 0 <= i < |names| => TypedLocal(names[i], IntT));
    BindTypes(map[], params, tls);
  }

  lemma {:induction false} BindTypes(locals: Locals, syms: seq<Sym>, tls: seq<TypedLocal>)
    requires |syms| == |tls| && forall i :: 0 <= i < |tls| ==> tls[i].typ == IntT
    ensures var after := Bind(locals, syms, tls);
            forall s :: (s in after <==> s in locals || s in syms) &&
                        (s in after ==> after[s].typ == if s in syms then IntT else locals[s].typ)
    decreases |syms|
  {
    if syms != [] { BindTypes(locals[syms[0] := tls[0]], syms[1..], tls[1..]); }
  }

  lemma MatchParams(syms: seq<Sym>, names: seq<Name>, locals: Locals, env: Env, vars: Vars, vals: seq<Value>)
    requires |syms| == |names| && locals == ParamLocals(syms, names) && env == Bind(map[], syms, vals)
    requires HoldAll(vars, names, vals) && AllIntValues(vals)
    ensures Match(locals, env, vars)
  {
    var tls := seq(|names|, i requires 0 <= i < |names| => TypedLocal(names[i], IntT));
    assert Match(map[], map[], vars);
    MatchBind(syms, tls, map[], map[], vars, vals);
  }

  lemma {:induction false} MatchBind(syms: seq<Sym>, tls: seq<TypedLocal>, locals: Locals, env: Env, vars: Vars,
          vals: seq<Value>)
    requires |syms| == |tls| == |vals| && Match(locals, env, vars) && AllIntValues(vals)
    requires forall i :: 0 <= i < |tls| ==> tls[i].typ == IntT && Holds(vars, tls[i].name, vals[i])
    ensures Match(Bind(locals, syms, tls), Bind(env, syms, vals), vars)
    decreases |syms|
  {
    hide Match;
    if syms != [] {
      MatchUpdate(locals, syms[0], tls[0], env, vars, vals[0]);
      MatchBind(syms[1..], tls[1..], locals[syms[0] := tls[0]], env[syms[0] := vals[0]], vars, vals[1..]);
    }
  }

  lemma HelperGuards(w: World, guards: Stmt, int32: bool, params: seq<Name>, selfGuard: Stmt, f: FnId, vars: Vars,
          fuel: nat)
    requires WellTyped(w.p) && f in w.p.fns
    requires guards == if int32 then Int32Guards(params) else Skip
    requires selfGuard == if UsesSelf(w.p.fns[f].body, f) && w.p.fns[f].guarded then If1(GStale(f), ReturnFail)
             else Skip
    requires forall i :: 0 <= i < |params| ==> params[i] in vars && vars[params[i]].IntV?
    ensures Exec(w, guards, vars, fuel) == Failed || Exec(w, guards, vars, fuel) == Normal(vars)
    ensures var r := Exec(w, selfGuard, vars, fuel);
            r == Failed || (r == Normal(vars) && (UsesSelf(w.p.fns[f].body, f) ==> w.p.current(f)))
  {
    hide Int32Guards, UsesSelf, ExprType;
    if int32 { Guards(w, params, vars, fuel); }
  }

  lemma {:induction false} SimCallees(w: World, callees: seq<FnId>, n: Name, vars: Vars, fuel: nat)
    requires Below(vars, n)
    ensures var r := Exec(w, CalleeCode(callees, n), vars, fuel);
            && r.Normal?
            && Extends(vars, r.vars)
            && Below(r.vars, n + |callees|)
            && forall f :: f in callees ==>
                f in CalleeNames(callees, n) && Holds(r.vars, CalleeNames(callees, n)[f], FnV(f))
    decreases |callees|
  {
    if callees != [] {
      var mid := vars[n := FnV(callees[0])];
      var first := Define(n, GFnVar(callees[0]));
      assert Exec(w, first, vars, fuel) == Normal(mid);
      AfterSeq(w, first, CalleeCode(callees[1..], n + 1), vars, fuel);
      SimCallees(w, callees[1..], n + 1, mid, fuel);
      var after := Exec(w, CalleeCode(callees[1..], n + 1), mid, fuel).vars;
      assert Extends(vars, mid);
      ExtendsTrans(vars, mid, after);
      assert Holds(after, n, mid[n]);
    }
  }

  // ---- loops ----

  ghost predicate KeepsBut(vars: Vars, after: Vars, names: seq<Name>) {
    forall k :: k in vars && k !in names ==> Holds(after, k, vars[k])
  }

  predicate Distinct(names: seq<Name>) { forall i, j :: 0 <= i < j < |names| ==> names[i] != names[j] }

  /** The variables that tail code may assign: the loop variables and the loop's result, all int64. */
  ghost predicate Frame(vars: Vars, names: seq<Name>, result: Name) {
    && Distinct(names)
    && result !in names
    && result in vars && vars[result].IntV?
    && forall i :: 0 <= i < |names| ==> names[i] in vars && vars[names[i]].IntV?
  }

  ghost predicate TypedTail(c: Context, e: Expr, locals: Locals, id: nat, arity: nat) {
    LoopTail(c.p, c.self, e, TypesOf(locals), id, arity) && (UsesSelf(e, c.self) ==> c.p.current(c.self))
  }

  /** Tail code goes round with the recurred values in the loop variables, or leaves with the value in `result`. */
  ghost predicate TailSimulates(r: Result, src: Outcome, vars: Vars, names: seq<Name>, result: Name, lbl: Name,
          id: nat) {
    match r
    case Continued(l, after) =>
      && l == lbl
      && src.Recurred? && src.id == id
      && AllIntValues(src.vals)
      && HoldAll(after, names, src.vals)
      && KeepsBut(vars, after, names)
    case Broken(l, after) =>
      && l == lbl
      && src.Val? && src.v.IntV?
      && Holds(after, result, src.v)
      && KeepsBut(vars, after, [result])
    case Failed => true
    case Panicked => Fails(src)
    case OutOfFuel => Fails(src)
    case _ => false
  }

  ghost predicate SimTailOf(w: World, c: Context, e: Expr, locals: Locals, env: Env, vars: Vars, names: seq<Name>,
          result: Name, lbl: Name, id: nat, n: Name, fuel: nat) {
    TailSimulates(Exec(w, EmitTail(c, e, locals, names, result, lbl, n).code, vars, fuel), Eval(w.p, e, env, fuel),
                  vars, names, result, lbl, id)
  }

  lemma TailLeave(r: Result, src: Outcome, vars: Vars, base: Vars, names: seq<Name>, result: Name, lbl: Name, id: nat)
    requires TailSimulates(r, src, vars, names, result, lbl, id)
    requires Extends(base, vars) && Frame(base, names, result)
    ensures TailSimulates(Leave(r, base), src, base, names, result, lbl, id)
  {
    if r.Continued? || r.Broken? {
      var out := Outside(r.vars, base);
      forall k | k in base && (if r.Continued? then k !in names else k !in [result])
        ensures Holds(out, k, base[k])
      {
        assert Holds(vars, k, base[k]);
        assert Holds(r.vars, k, vars[k]);
      }
      if r.Continued? {
        forall i | 0 <= i < |names|
          ensures Holds(out, names[i], src.vals[i])
        {
          assert Holds(r.vars, names[i], src.vals[i]);
        }
      }
    }
  }

  lemma TailWeaken(r: Result, src: Outcome, vars: Vars, base: Vars, names: seq<Name>, result: Name, lbl: Name, id: nat)
    requires TailSimulates(r, src, vars, names, result, lbl, id) && Extends(base, vars)
    ensures TailSimulates(r, src, base, names, result, lbl, id)
  {
    if r.Continued? || r.Broken? {
      forall k | k in base && (if r.Continued? then k !in names else k !in [result])
        ensures Holds(r.vars, k, base[k])
      {
        assert Holds(vars, k, base[k]);
        assert Holds(r.vars, k, vars[k]);
      }
    }
  }

  lemma FrameAfter(vars: Vars, after: Vars, names: seq<Name>, result: Name)
    requires Frame(vars, names, result) && Extends(vars, after)
    ensures Frame(after, names, result)
  {
    assert Holds(after, result, vars[result]);
    forall i | 0 <= i < |names|
      ensures names[i] in after && after[names[i]].IntV?
    {
      assert Holds(after, names[i], vars[names[i]]);
    }
  }

  lemma {:induction false} SimTail(w: World, c: Context, e: Expr, locals: Locals, env: Env, vars: Vars,
          names: seq<Name>, result: Name, lbl: Name, id: nat, n: Name, fuel: nat)
    requires Ready(w, c, locals, env, vars, n) && TypedTail(c, e, locals, id, |names|) && Frame(vars, names, result)
    ensures SimTailOf(w, c, e, locals, env, vars, names, result, lbl, id, n, fuel)
    decreases fuel, 0, e, 6
  {
    hide *;
    match e
    case Do(ret) =>
      UnwrapTail(w, c, ret, locals, env, vars, names, result, lbl, id, n, fuel);
      SimTail(w, c, ret, locals, env, vars, names, result, lbl, id, n, fuel);
    case Recur(_, _) => TailRecur(w, c, e, locals, env, vars, names, result, lbl, id, n, fuel);
    case If(_, _, _) => TailIf(w, c, e, locals, env, vars, names, result, lbl, id, n, fuel);
    case Let(_, _) => TailLet(w, c, e, locals, env, vars, names, result, lbl, id, n, fuel);
    case _ => TailLast(w, c, e, locals, env, vars, names, result, lbl, id, n, fuel);
  }

  lemma UnwrapTail(w: World, c: Context, ret: Expr, locals: Locals, env: Env, vars: Vars, names: seq<Name>,
          result: Name, lbl: Name, id: nat, n: Name, fuel: nat)
    requires TypedTail(c, Do(ret), locals, id, |names|)
    ensures TypedTail(c, ret, locals, id, |names|)
    ensures SimTailOf(w, c, Do(ret), locals, env, vars, names, result, lbl, id, n, fuel)
         == SimTailOf(w, c, ret, locals, env, vars, names, result, lbl, id, n, fuel)
  {
    hide Exec, TailSimulates;
  }

  lemma {:induction false} TailLast(w: World, c: Context, e: Expr, locals: Locals, env: Env, vars: Vars,
          names: seq<Name>, result: Name, lbl: Name, id: nat, n: Name, fuel: nat)
    requires Ready(w, c, locals, env, vars, n) && TypedTail(c, e, locals, id, |names|) && Frame(vars, names, result)
    requires !e.Do? && !e.Recur? && !e.If? && !e.Let?
    ensures SimTailOf(w, c, e, locals, env, vars, names, result, lbl, id, n, fuel)
    decreases fuel, 0, e, 5
  {
    hide Ready, GEval, ExprType, UsesSelf, Emit, Eval, Exec, TailSimulates, Frame, Simulates, EmitTail;
    SimExpr(w, c, e, locals, env, vars, n, fuel, IntT);
    TailIsLast(c, e, locals, names, result, lbl, n);
    LastCode(w, Emit(c, e, locals, n), Eval(w.p, e, env, fuel), vars, names, result, lbl, id, fuel);
  }

  lemma TailIsLast(c: Context, e: Expr, locals: Locals, names: seq<Name>, result: Name, lbl: Name, n: Name)
    requires !e.Do? && !e.Recur? && !e.If? && !e.Let?
    ensures EmitTail(c, e, locals, names, result, lbl, n) == EmitLast(c, e, locals, result, lbl, n)
  {
    hide Emit, EmitLast;
  }

  lemma LastCode(w: World, a: Emitted, src: Outcome, vars: Vars, names: seq<Name>, result: Name, lbl: Name, id: nat,
          fuel: nat)
    requires Simulates(w.p, Exec(w, a.code, vars, fuel), a.value, src, vars, a.next, IntT)
    requires Frame(vars, names, result)
    ensures TailSimulates(Exec(w, Seq(a.code, Seq(Assign(result, a.value), Break(lbl))), vars, fuel), src, vars,
            names, result, lbl, id)
  {
    hide GEval;
    var assign := Assign(result, a.value);
    AfterSeq(w, a.code, Seq(assign, Break(lbl)), vars, fuel);
    var r := Exec(w, a.code, vars, fuel);
    if r.Normal? {
      AfterSeq(w, assign, Break(lbl), r.vars, fuel);
      assert Holds(r.vars, result, vars[result]);
      if src.Val? {
        var after := r.vars[result := src.v];
        forall k | k in vars && k !in [result]
          ensures Holds(after, k, vars[k])
        {
          assert Holds(r.vars, k, vars[k]);
        }
      }
    }
  }

  lemma {:induction false} TailIf(w: World, c: Context, e: Expr, locals: Locals, env: Env, vars: Vars,
          names: seq<Name>, result: Name, lbl: Name, id: nat, n: Name, fuel: nat)
    requires Ready(w, c, locals, env, vars, n) && TypedTail(c, e, locals, id, |names|)
             && Frame(vars, names, result) && e.If?
    ensures SimTailOf(w, c, e, locals, env, vars, names, result, lbl, id, n, fuel)
    decreases fuel, 0, e, 5
  {
    hide Ready, GEval, ExprType, Emit, Frame, TailSimulates;
    var q := Emit(c, e.test, locals, n);
    var a := EmitTail(c, e.thn, locals, names, result, lbl, q.next);
    var b := EmitTail(c, e.els, locals, names, result, lbl, a.next);
    SimExpr(w, c, e.test, locals, env, vars, n, fuel, BoolT);
    AfterSeq(w, q.code, If2(q.value, a.code, b.code), vars, fuel);
    var r := Exec(w, q.code, vars, fuel);
    if r.Normal? {
      var mid := r.vars;
      ReadyAfter(w, c, locals, env, vars, n, mid, q.next);
      ReadyAfter(w, c, locals, env, vars, n, mid, a.next);
      FrameAfter(vars, mid, names, result);
      SimTail(w, c, e.thn, locals, env, mid, names, result, lbl, id, q.next, fuel);
      SimTail(w, c, e.els, locals, env, mid, names, result, lbl, id, a.next, fuel);
      BranchTail(w, q.value, a.code, b.code, mid, fuel, Eval(w.p, e.test, env, fuel), Eval(w.p, e.thn, env, fuel),
        Eval(w.p, e.els, env, fuel), names, result, lbl, id);
      TailWeaken(Exec(w, If2(q.value, a.code, b.code), mid, fuel), Eval(w.p, e, env, fuel), mid, vars, names,
        result, lbl, id);
    } else {
      NoTail(r, Eval(w.p, e, env, fuel), vars, names, result, lbl, id);
    }
  }

  lemma NoTail(r: Result, src: Outcome, vars: Vars, names: seq<Name>, result: Name, lbl: Name, id: nat)
    requires r.Failed? || ((r.Panicked? || r.OutOfFuel?) && Fails(src))
    ensures TailSimulates(r, src, vars, names, result, lbl, id)
  {}

  lemma BranchTail(w: World, test: GExpr, a: Stmt, b: Stmt, mid: Vars, fuel: nat, srcTest: Outcome, thn: Outcome,
          els: Outcome, names: seq<Name>, result: Name, lbl: Name, id: nat)
    requires match GEval(w.p, test, mid)
             case GVal(v) => srcTest == Val(v) && v.BoolV?
             case GPanic => Fails(srcTest)
             case GStuck => false
    requires Frame(mid, names, result)
    requires TailSimulates(Exec(w, a, mid, fuel), thn, mid, names, result, lbl, id)
    requires TailSimulates(Exec(w, b, mid, fuel), els, mid, names, result, lbl, id)
    ensures var src := if !srcTest.Val? then srcTest else if srcTest.v == BoolV(false) then els else thn;
            TailSimulates(Exec(w, If2(test, a, b), mid, fuel), src, mid, names, result, lbl, id)
  {
    hide GEval, Frame, Leave, TailSimulates;
    assert Extends(mid, mid);
    if GEval(w.p, test, mid).GVal? {
      assert Exec(w, If2(test, a, b), mid, fuel) == Leave(Exec(w, if srcTest.v.b then a else b, mid, fuel), mid);
    } else {
      NoTail(Panicked, srcTest, mid, names, result, lbl, id);
    }
    TailLeave(Exec(w, a, mid, fuel), thn, mid, mid, names, result, lbl, id);
    TailLeave(Exec(w, b, mid, fuel), els, mid, mid, names, result, lbl, id);
  }

  lemma {:induction false} TailLet(w: World, c: Context, e: Expr, locals: Locals, env: Env, vars: Vars,
          names: seq<Name>, result: Name, lbl: Name, id: nat, n: Name, fuel: nat)
    requires Ready(w, c, locals, env, vars, n) && TypedTail(c, e, locals, id, |names|)
             && Frame(vars, names, result) && e.Let?
    ensures SimTailOf(w, c, e, locals, env, vars, names, result, lbl, id, n, fuel)
    decreases fuel, 0, e, 5
  {
    hide Ready, GEval, TypesAfter, EmitBindings, EvalBindings, Frame, TailSimulates, Extends;
    var b := EmitBindings(c, e.bindings, locals, n);
    var a := EmitTail(c, e.body, b.locals, names, result, lbl, b.next);
    SimBindings(w, c, e.bindings, locals, env, vars, n, fuel, false);
    BindingTypes(c, e.bindings, locals, n, false);
    AfterSeq(w, b.code, a.code, vars, fuel);
    var r := Exec(w, b.code, vars, fuel);
    var src := Eval(w.p, e, env, fuel);
    if r.Normal? {
      var mid := r.vars;
      var inner := Bind(env, Syms(e.bindings), EvalBindings(w.p, e.bindings, env, fuel).vs);
      FrameAfter(vars, mid, names, result);
      SimTail(w, c, e.body, b.locals, inner, mid, names, result, lbl, id, b.next, fuel);
      TailLeave(Exec(w, a.code, mid, fuel), src, mid, vars, names, result, lbl, id);
    } else {
      NoTail(r, src, vars, names, result, lbl, id);
    }
  }

  // ---- recur ----

  ghost predicate SimulatesNext(r: Result, names: seq<Name>, src: Outcomes, vars: Vars, next: Name) {
    match r
    case Normal(after) => Extends(vars, after) && Below(after, next) && src.Vals?
        && HoldAll(after, names, src.vs) && AllIntValues(src.vs)
    case Failed => true
    case Panicked => FailsAll(src)
    case OutOfFuel => FailsAll(src)
    case _ => false
  }

  lemma {:induction false} NextNames(c: Context, es: Exprs, locals: Locals, n: Name)
    ensures var b := EmitNext(c, es, locals, n);
            Increasing(b.names, n, b.next) && |b.names| == Count(es)
  {
    hide Emit, Increasing;
    if es.Exprs? {
      var a := Emit(c, es.head, locals, n);
      NextNames(c, es.tail, locals, a.next + 1);
      IncreasingCons(a.next, EmitNext(c, es.tail, locals, a.next + 1).names, n,
        EmitNext(c, es.tail, locals, a.next + 1).next);
    } else {
      NoNames(n);
    }
  }

  lemma {:induction false} SimNext(w: World, c: Context, es: Exprs, locals: Locals, env: Env, vars: Vars, n: Name,
          fuel: nat)
    requires Ready(w, c, locals, env, vars, n) && TypedArgs(c, es, locals)
    ensures var b := EmitNext(c, es, locals, n);
            SimulatesNext(Exec(w, b.code, vars, fuel), b.names, EvalArgs(w.p, es, env, fuel), vars, b.next)
    decreases fuel, 0, es, 3
  {
    hide Emit, Eval, ExprType, UsesSelf, Ready, GEval, TypesOf, Extends, Exec, HoldAll;
    if es.Exprs? {
      var a := Emit(c, es.head, locals, n);
      var b := EmitNext(c, es.tail, locals, a.next + 1);
      SimExpr(w, c, es.head, locals, env, vars, n, fuel, IntT);
      DefineCode(w, a, b.code, vars, fuel);
      var r := Exec(w, a.code, vars, fuel);
      var src := Eval(w.p, es.head, env, fuel);
      if r.Normal? && GEval(w.p, a.value, r.vars).GVal? {
        var mid := r.vars[a.next := src.v];
        ExtendsDefine(vars, r.vars, a.next, src.v);
        ReadyAfter(w, c, locals, env, vars, n, mid, a.next + 1);
        SimNext(w, c, es.tail, locals, env, mid, a.next + 1, fuel);
        ConsNext(Exec(w, b.code, mid, fuel), b.names, EvalArgs(w.p, es.tail, env, fuel), vars, mid, a.next, src.v,
          b.next);
      }
    } else {
      SameProgram(w, c, locals, env, vars, n);
      NoNext(w, vars, n, fuel);
    }
  }

  lemma NoNext(w: World, vars: Vars, n: Name, fuel: nat)
    requires Below(vars, n)
    ensures SimulatesNext(Exec(w, Skip, vars, fuel), [], Vals([]), vars, n)
  {}

  lemma ExtendsDefine(vars: Vars, after: Vars, n: Name, v: Value)
    requires Extends(vars, after) && Below(after, n)
    ensures Extends(vars, after[n := v]) && Below(after[n := v], n + 1) && n !in after && Holds(after[n := v], n, v)
  {}

  lemma ConsNext(r: Result, names: seq<Name>, src: Outcomes, vars: Vars, mid: Vars, name: Name, v: Value, next: Name)
    requires Extends(vars, mid) && Holds(mid, name, v) && v.IntV?
    requires SimulatesNext(r, names, src, mid, next)
    ensures SimulatesNext(r, [name] + names, if src.Vals? then Vals([v] + src.vs) else src, vars, next)
  {
    if r.Normal? {
      ExtendsTrans(vars, mid, r.vars);
      assert Holds(r.vars, name, mid[name]);
    }
  }

  lemma {:induction false} SimAssignAll(w: World, names: seq<Name>, values: seq<Name>, vars: Vars, vs: seq<Value>,
          fuel: nat)
    requires Distinct(names) && |names| == |values| && AllIntValues(vs)
    requires HoldAll(vars, values, vs)
    requires forall i :: 0 <= i < |names| ==> names[i] in vars && vars[names[i]].IntV?
    requires forall i :: 0 <= i < |names| ==> names[i] !in values
    ensures var r := Exec(w, AssignAll(names, values), vars, fuel);
            r.Normal? && HoldAll(r.vars, names, vs) && KeepsBut(vars, r.vars, names)
  {
    if names != [] {
      var mid := vars[names[0] := vs[0]];
      assert Holds(vars, values[0], vs[0]);
      var first := Assign(names[0], GVar(values[0]));
      AfterSeq(w, first, AssignAll(names[1..], values[1..]), vars, fuel);
      assert Exec(w, first, vars, fuel) == Normal(mid);
      forall i | 0 <= i < |values[1..]|
        ensures Holds(mid, values[1..][i], vs[1..][i])
      {
        assert Holds(vars, values[i + 1], vs[i + 1]);
      }
      SimAssignAll(w, names[1..], values[1..], mid, vs[1..], fuel);
      var after := Exec(w, AssignAll(names[1..], values[1..]), mid, fuel).vars;
      assert names[0] !in names[1..];
      assert Holds(after, names[0], mid[names[0]]);
      forall i | 0 <= i < |names|
        ensures Holds(after, names[i], vs[i])
      {
        if i > 0 { assert Holds(after, names[1..][i - 1], vs[1..][i - 1]); }
      }
      forall k | k in vars && k !in names
        ensures Holds(after, k, vars[k])
      {
        assert k !in names[1..];
        assert Holds(after, k, mid[k]);
      }
    }
  }

  lemma {:induction false} TailRecur(w: World, c: Context, e: Expr, locals: Locals, env: Env, vars: Vars,
          names: seq<Name>, result: Name, lbl: Name, id: nat, n: Name, fuel: nat)
    requires Ready(w, c, locals, env, vars, n) && TypedTail(c, e, locals, id, |names|)
             && Frame(vars, names, result) && e.Recur?
    ensures SimTailOf(w, c, e, locals, env, vars, names, result, lbl, id, n, fuel)
    decreases fuel, 0, e, 5
  {
    hide Ready, EmitNext, EvalArgs, AllInts, UsesSelfA, Below, Exec, Frame, TailSimulates, Increasing, SimulatesNext;
    var a := EmitNext(c, e.args, locals, n);
    SameProgram(w, c, locals, env, vars, n);
    SimNext(w, c, e.args, locals, env, vars, n, fuel);
    NextNames(c, e.args, locals, n);
    RecurCode(w, a, EvalArgs(w.p, e.args, env, fuel), vars, names, result, lbl, id, n, fuel);
  }

  lemma RecurCode(w: World, a: EmittedNext, src: Outcomes, vars: Vars, names: seq<Name>, result: Name, lbl: Name,
          id: nat, n: Name, fuel: nat)
    requires Below(vars, n) && Increasing(a.names, n, a.next) && |a.names| == |names| && Frame(vars, names, result)
    requires SimulatesNext(Exec(w, a.code, vars, fuel), a.names, src, vars, a.next)
    ensures TailSimulates(Exec(w, Seq(a.code, Seq(AssignAll(names, a.names), Continue(lbl))), vars, fuel),
                          if src.Vals? then Recurred(id, src.vs) else src.outcome, vars, names, result, lbl, id)
  {
    hide AssignAll, Increasing, Below;
    var assign := AssignAll(names, a.names);
    AfterSeq(w, a.code, Seq(assign, Continue(lbl)), vars, fuel);
    var r := Exec(w, a.code, vars, fuel);
    if r.Normal? {
      FrameAfter(vars, r.vars, names, result);
      FreshNames(vars, n, names, a.names, a.next);
      SimAssignAll(w, names, a.names, r.vars, src.vs, fuel);
      AfterSeq(w, assign, Continue(lbl), r.vars, fuel);
      KeepsAfter(vars, r.vars, Exec(w, assign, r.vars, fuel).vars, names);
    }
  }

  lemma KeepsAfter(vars: Vars, mid: Vars, after: Vars, names: seq<Name>)
    requires Extends(vars, mid) && KeepsBut(mid, after, names)
    ensures KeepsBut(vars, after, names)
  {
    forall k | k in vars && k !in names
      ensures Holds(after, k, vars[k])
    {
      assert Holds(mid, k, vars[k]);
      assert Holds(after, k, mid[k]);
    }
  }

  lemma FreshNames(vars: Vars, n: Name, names: seq<Name>, values: seq<Name>, hi: Name)
    requires Below(vars, n) && Increasing(values, n, hi)
    requires forall i :: 0 <= i < |names| ==> names[i] in vars
    ensures forall i :: 0 <= i < |names| ==> names[i] !in values
  {}

  // ---- going round ----

  /** At the head of each iteration: what was there before the loop, and the current values of the loop variables. */
  ghost predicate AtHead(vars: Vars, base: Vars, names: seq<Name>, result: Name, vals: seq<Value>, lo: Name, n: Name) {
    && Below(vars, n)
    && Extends(base, vars)
    && Below(base, lo) && Increasing(names, lo, n)
    && Holds(base, result, IntV(0))
    && HoldAll(vars, names, vals)
    && AllIntValues(vals)
  }

  /** The loop ends with the source's value in `result`; the block around it then drops the loop variables. */
  ghost predicate LoopSimulates(r: Result, src: Outcome, base: Vars, result: Name) {
    match r
    case Normal(after) => src.Val? && src.v.IntV? && Holds(after, result, src.v) && KeepsBut(base, after, [result])
    case Failed => true
    case Panicked => Fails(src)
    case OutOfFuel => Fails(src)
    case _ => false
  }

  lemma HeadFrame(vars: Vars, base: Vars, names: seq<Name>, result: Name, vals: seq<Value>, lo: Name, n: Name)
    requires AtHead(vars, base, names, result, vals, lo, n)
    ensures Frame(vars, names, result)
  {
    assert Holds(vars, result, base[result]);
    forall i | 0 <= i < |names|
      ensures names[i] in vars && vars[names[i]].IntV?
    {
      assert Holds(vars, names[i], vals[i]);
    }
  }

  /** After `continue` the loop is at its head again. */
  lemma HeadAgain(vars: Vars, base: Vars, names: seq<Name>, result: Name, vals: seq<Value>, lo: Name, n: Name,
          after: Vars, next: seq<Value>)
    requires AtHead(vars, base, names, result, vals, lo, n)
    requires HoldAll(after, names, next) && AllIntValues(next) && KeepsBut(vars, after, names)
    ensures AtHead(Outside(after, vars), base, names, result, next, lo, n)
  {
    var out := Outside(after, vars);
    forall k | k in base
      ensures Holds(out, k, base[k])
    {
      assert Holds(vars, k, base[k]);
      assert k !in names;
      assert Holds(after, k, vars[k]);
    }
    forall i | 0 <= i < |names|
      ensures Holds(out, names[i], next[i])
    {
      assert Holds(after, names[i], next[i]);
      assert Holds(vars, names[i], vals[i]);
    }
  }

  lemma LoopDone(vars: Vars, base: Vars, names: seq<Name>, result: Name, vals: seq<Value>, lo: Name, n: Name,
          after: Vars, src: Outcome)
    requires AtHead(vars, base, names, result, vals, lo, n)
    requires src.Val? && src.v.IntV? && Holds(after, result, src.v) && KeepsBut(vars, after, [result])
    ensures LoopSimulates(Normal(Outside(after, vars)), src, base, result)
  {
    var out := Outside(after, vars);
    assert Holds(vars, result, base[result]);
    forall k | k in base && k !in [result]
      ensures Holds(out, k, base[k])
    {
      assert Holds(vars, k, base[k]);
      assert Holds(after, k, vars[k]);
    }
  }

  lemma Comparisons(w: World, n: Name, x: int64, vars: Vars)
    requires Holds(vars, n, IntV(x))
    ensures GEval(w.p, GOr(GBinary(Less, GVar(n), GInt(-2147483647)), GBinary(Greater, GVar(n), GInt(2147483647))),
            vars)
         == GVal(BoolV(x < -2147483647 || x > 2147483647))
  {
    var p := w.p;
    assert GEval(p, GVar(n), vars) == GVal(IntV(x));
    assert GEval(p, GInt(-2147483647), vars) == GVal(IntV(-2147483647)) && GEval(p, GInt(2147483647), vars)
        == GVal(IntV(2147483647));
    assert GEval(p, GBinary(Less, GVar(n), GInt(-2147483647)), vars) == GVal(BoolV(x < -2147483647));
    assert GEval(p, GBinary(Greater, GVar(n), GInt(2147483647)), vars) == GVal(BoolV(x > 2147483647));
  }

  lemma {:induction false} Guards(w: World, names: seq<Name>, vars: Vars, fuel: nat)
    requires forall i :: 0 <= i < |names| ==> names[i] in vars && vars[names[i]].IntV?
    ensures var r := Exec(w, Int32Guards(names), vars, fuel);
            r == Failed || r == Normal(vars)
  {
    if names != [] {
      var x := vars[names[0]].i;
      var less, more := GBinary(Less, GVar(names[0]), GInt(-2147483647)),
          GBinary(Greater, GVar(names[0]), GInt(2147483647));
      Comparisons(w, names[0], x, vars);
      var first := If1(GOr(less, more), ReturnFail);
      assert Exec(w, first, vars, fuel) == if x < -2147483647 || x > 2147483647 then Failed else Normal(vars);
      AfterSeq(w, first, Int32Guards(names[1..]), vars, fuel);
      Guards(w, names[1..], vars, fuel);
    }
  }

  /** Rebinding the source's loop variables keeps the two states in step. */
  lemma {:induction false} Rebind(w: World, c: Context, bs: Bindings, locals: Locals, env: Env, vars: Vars, n: Name,
          vals: seq<Value>)
    requires Match(locals, env, vars) && TypedBindings(c, bs, locals, true)
    requires HoldAll(vars, EmitBindings(c, bs, locals, n).names, vals) && AllIntValues(vals)
    ensures Match(EmitBindings(c, bs, locals, n).locals, Bind(env, Syms(bs), vals), vars)
  {
    hide Emit, ExprType, UsesSelf, Match, TypesOf;
    if bs.Binding? {
      var a := Emit(c, bs.init, locals, n);
      var local := TypedLocal(a.next, TypeOr(ExprType(c.p, c.self, bs.init, TypesOf(locals))));
      var b := EmitBindings(c, bs.rest, locals[bs.sym := local], a.next + 1);
      var names := EmitBindings(c, bs, locals, n).names;
      FirstBinding(c, bs, locals, n, true);
      assert Holds(vars, names[0], vals[0]);
      MatchUpdate(locals, bs.sym, local, env, vars, vals[0]);
      forall i | 0 <= i < |b.names|
        ensures Holds(vars, b.names[i], vals[1..][i])
      {
        assert Holds(vars, names[i + 1], vals[i + 1]);
      }
      Rebind(w, c, bs.rest, locals[bs.sym := local], env[bs.sym := vals[0]], vars, a.next + 1, vals[1..]);
      assert Syms(bs)[1..] == Syms(bs.rest);
    }
  }

  lemma {:induction false} SimFor(w: World, c: Context, e: Expr, b: EmittedBindings, locals: Locals, env: Env,
          base: Vars, vars: Vars, vals: seq<Value>, lo: Name, lbl: Name, result: Name, fuel: nat)
    requires e.Loop? && Ready(w, c, locals, env, base, lo) && b == EmitBindings(c, e.bindings, locals, lo)
    requires TypedBindings(c, e.bindings, locals, true) && TypedTail(c, e.body, b.locals, e.id, |b.names|)
             && |b.names| == |Syms(e.bindings)|
    requires AtHead(vars, base, b.names, result, vals, lo, b.next)
    ensures var tail := EmitTail(c, e.body, b.locals, b.names, result, lbl, b.next);
            var code := Seq(if e.guarded then Int32Guards(b.names) else Skip, tail.code);
            LoopSimulates(ExecFor(w, lbl, code, vars, fuel),
              EvalLoop(w.p, e.id, Syms(e.bindings), e.body, env, vals, fuel), base, result)
    decreases fuel, 0, e.body, 7
  {
    hide Ready, EmitTail, Eval, EmitBindings, Exec, AtHead, Frame, TypedTail, TypedBindings, Int32Guards, Bind;
    var tail := EmitTail(c, e.body, b.locals, b.names, result, lbl, b.next);
    var guards := if e.guarded then Int32Guards(b.names) else Skip;
    var inner := Bind(env, Syms(e.bindings), vals);
    HeadFrame(vars, base, b.names, result, vals, lo, b.next);
    HeadReady(w, c, e, b, locals, env, base, vars, vals, lo, result);
    SimTail(w, c, e.body, b.locals, inner, vars, b.names, result, lbl, e.id, b.next, fuel);
    HeadGuards(w, guards, e.guarded, b.names, vars, result, fuel);
    AfterSeq(w, guards, tail.code, vars, fuel);
    var r := Exec(w, tail.code, vars, fuel);
    var src := Eval(w.p, e.body, inner, fuel);
    if Exec(w, guards, vars, fuel).Normal? {
      if r.Continued? {
        HeadAgain(vars, base, b.names, result, vals, lo, b.next, r.vars, src.vals);
        if fuel > 0 {
          SimFor(w, c, e, b, locals, env, base, Outside(r.vars, vars), src.vals, lo, lbl, result, fuel - 1);
        }
      } else if r.Broken? {
        LoopDone(vars, base, b.names, result, vals, lo, b.next, r.vars, src);
      }
    }
  }

  lemma HeadGuards(w: World, guards: Stmt, guarded: bool, names: seq<Name>, vars: Vars, result: Name, fuel: nat)
    requires guards == if guarded then Int32Guards(names) else Skip
    requires Frame(vars, names, result)
    ensures var r := Exec(w, guards, vars, fuel);
            r == Failed || r == Normal(vars)
  {
    if guarded { Guards(w, names, vars, fuel); }
  }

  lemma HeadReady(w: World, c: Context, e: Expr, b: EmittedBindings, locals: Locals, env: Env, base: Vars,
          vars: Vars, vals: seq<Value>, lo: Name, result: Name)
    requires e.Loop? && Ready(w, c, locals, env, base, lo) && b == EmitBindings(c, e.bindings, locals, lo)
    requires TypedBindings(c, e.bindings, locals, true)
    requires AtHead(vars, base, b.names, result, vals, lo, b.next)
    ensures Ready(w, c, b.locals, Bind(env, Syms(e.bindings), vals), vars, b.next)
  {
    hide EmitBindings, TypedBindings, Bind, Compiled, WellTyped, Match;
    ContextExtends(w, c, base, vars);
    MatchExtends(locals, env, base, vars);
    Rebind(w, c, e.bindings, locals, env, vars, lo, vals);
  }

  lemma {:induction false} SimLoop(w: World, c: Context, e: Expr, locals: Locals, env: Env, vars: Vars, n: Name,
          fuel: nat, t: Type)
    requires Ready(w, c, locals, env, vars, n) && Typed(c, e, locals, t) && e.Loop?
    ensures Sim(w, c, e, locals, env, vars, n, fuel, t)
    decreases fuel, 0, e, 2
  {
    hide Ready, Typed, GEval, Emit, Eval, EmitBindings, EmitTail, EvalBindings, EvalLoop, TypedBindings, TypedTail,
        Below, Extends, Increasing, Exec, HoldAll, TypesOf;
    var base := vars[n := Zero(IntT)];
    LoopParts(c, e, locals, n, t);
    LoopValue(w.p, e, env, fuel);
    Declare(w, c, locals, env, vars, n, IntT);
    ReadyLater(w, c, locals, env, base, n + 1, n + 2);
    var b := EmitBindings(c, e.bindings, locals, n + 2);
    SimBindings(w, c, e.bindings, locals, env, base, n + 2, fuel, true);
    var tail := EmitTail(c, e.body, b.locals, b.names, n, n + 1, b.next);
    var body := Seq(if e.guarded then Int32Guards(b.names) else Skip, tail.code);
    var loop := For(n + 1, body);
    DeclBlock(w, n, IntT, b.code, loop, vars, fuel);
    var r := Exec(w, b.code, base, fuel);
    if r.Normal? {
      var src := Eval(w.p, e, env, fuel);
      var vals := EvalBindings(w.p, e.bindings, env, fuel).vs;
      SameProgram(w, c, b.locals, Bind(env, Syms(e.bindings), vals), r.vars, b.next);
      SameProgram(w, c, locals, env, base, n + 2);
      EnterLoop(base, r.vars, b.names, n, vals, n + 2, b.next);
      SimFor(w, c, e, b, locals, env, base, r.vars, vals, n + 2, n + 1, n, fuel);
      ForCode(w, n + 1, body, r.vars, fuel);
      LeaveLoop(Exec(w, loop, r.vars, fuel), src, base, n);
      DeclaredResult(w.p, Leave(Exec(w, loop, r.vars, fuel), base), vars, base, n, src, tail.next, IntT);
    }
  }

  lemma LoopParts(c: Context, e: Expr, locals: Locals, n: Name, t: Type)
    requires e.Loop? && Typed(c, e, locals, t)
    ensures var b := EmitBindings(c, e.bindings, locals, n + 2);
            var tail := EmitTail(c, e.body, b.locals, b.names, n, n + 1, b.next);
            var loop := For(n + 1, Seq(if e.guarded then Int32Guards(b.names) else Skip, tail.code));
            && t == IntT
            && TypedBindings(c, e.bindings, locals, true)
            && TypedTail(c, e.body, b.locals, e.id, |b.names|)
            && Increasing(b.names, n + 2, b.next)
            && |b.names| == |Syms(e.bindings)|
            && Emit(c, e, locals, n) == Emitted(Seq(Decl(n, IntT), Block(Seq(b.code, loop))), GVar(n), tail.next)
  {
    hide Increasing, TypesOf, EmitBindings, EmitTail, Int32Guards;
    BindingTypes(c, e.bindings, locals, n + 2, true);
    BindingNames(c, e.bindings, locals, n + 2);
  }

  lemma LoopValue(p: Program, e: Expr, env: Env, fuel: nat)
    requires e.Loop?
    ensures var src := EvalBindings(p, e.bindings, env, fuel);
            Eval(p, e, env, fuel) == if src.Vals? then EvalLoop(p, e.id, Syms(e.bindings), e.body, env, src.vs,
              fuel) else src.outcome
  {
    hide EvalLoop;
  }

  lemma ForCode(w: World, lbl: Name, body: Stmt, vars: Vars, fuel: nat)
    ensures Exec(w, For(lbl, body), vars, fuel) == ExecFor(w, lbl, body, vars, fuel)
  {}

  lemma ReadyLater(w: World, c: Context, locals: Locals, env: Env, vars: Vars, n: Name, next: Name)
    requires Ready(w, c, locals, env, vars, n) && n <= next
    ensures Ready(w, c, locals, env, vars, next)
  {}

  lemma EnterLoop(base: Vars, vars: Vars, names: seq<Name>, result: Name, vals: seq<Value>, lo: Name, n: Name)
    requires Below(vars, n) && Extends(base, vars) && Below(base, lo) && Increasing(names, lo, n)
    requires result in base && base[result] == IntV(0) && HoldAll(vars, names, vals) && AllIntValues(vals)
    ensures AtHead(vars, base, names, result, vals, lo, n)
  {}

  lemma LeaveLoop(r: Result, src: Outcome, base: Vars, result: Name)
    requires LoopSimulates(r, src, base, result) && result in base
    ensures Assigns(Leave(r, base), base, result, src, IntT)
  {
    if r.Normal? {
      forall k | k in base && k != result
        ensures Holds(r.vars, k, base[k])
      {}
    }
  }
}
