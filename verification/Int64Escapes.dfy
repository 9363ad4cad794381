/**
 When a generated helper may give up (`pkg/runtime/codegen_int64.go`): every `return 0, false` sits behind
 a test of a Var's root version, a range test for a host `int32`, or a call that itself gave up. A helper gives
 up exactly when its run reaches a redefined Var or a value out of range; where there can be neither, never.
 */
module Int64Escapes {
  import opened Int64
  import opened Int64Source
  import opened GoCode
  import opened Int64Emitter
  import Int64Functions

  /** Some loop tests its variables against the range of an `int32`. */
  predicate Ranged(e: Expr) {
    match e
    case Do(r) => Ranged(r)
    case Let(bs, body) => RangedB(bs) || Ranged(body)
    case Loop(_, guarded, bs, body) => guarded || RangedB(bs) || Ranged(body)
    case Recur(_, args) => RangedA(args)
    case If(test, thn, els) => Ranged(test) || Ranged(thn) || Ranged(els)
    case Host1(_, a) => Ranged(a)
    case Host2(_, l, r) => Ranged(l) || Ranged(r)
    case CoreEquals(l, r) => Ranged(l) || Ranged(r)
    case Call(_, args) => RangedA(args)
    case _ => false
  }

  predicate RangedA(es: Exprs) { es.Exprs? && (Ranged(es.head) || RangedA(es.tail)) }

  predicate RangedB(bs: Bindings) { bs.Binding? && (Ranged(bs.init) || RangedB(bs.rest)) }

  /** No Var has been redefined, and nothing is range tested. */
  predicate Steady(p: Program) {
    forall f :: f in p.fns ==> p.current(f) && !p.fns[f].int32Params && !Ranged(p.fns[f].body)
  }

  // ---- guards ----

  /** The range test of one variable. */
  predicate RangeTest(s: Stmt) {
    match s
    case If1(GOr(GBinary(Less, GVar(a), GInt(lo)), GBinary(Greater, GVar(b), GInt(hi))), ReturnFail) =>
      a == b && lo == -2147483647 && hi == 2147483647
    case _ => false
  }

  predicate StaleTest(s: Stmt) { s.If1? && s.cond.GStale? && s.body == ReturnFail }

  function TestedName(s: Stmt): Name
    requires RangeTest(s)
  {
    s.cond.left.left.name
  }

  /** What a guard is there for: the Var has been redefined, or the variable is outside the range of an `int32`. */
  predicate Caught(p: Program, s: Stmt, vars: Vars)
    requires RangeTest(s) || StaleTest(s)
  {
    if StaleTest(s) then !p.current(s.cond.f)
    else
      var n := TestedName(s);
      n in vars && vars[n].IntV? && !(-2147483647 <= vars[n].i <= 2147483647)
  }

  /** A call followed by the test of whether it gave up. */
  predicate TestedCall(s: Stmt) {
    s.Seq? && s.first.CallHelper? && s.second == If1(GNot(GVar(s.first.ok)), ReturnFail)
  }

  /** Does the run reach a guard that catches something, in this helper or in one that it calls? */
  predicate Fires(w: World, s: Stmt, vars: Vars, fuel: nat)
    decreases fuel, 0, s, 0
  {
    if RangeTest(s) || StaleTest(s) then Caught(w.p, s, vars)
    else if TestedCall(s) then
      var vs := GEvalAll(w.p, s.first.args, vars);
      && vs.GVals? && s.first.helper in vars && vars[s.first.helper].FnV? && fuel > 0
      && s.first.result !in vars && s.first.ok !in vars && s.first.result != s.first.ok
      && FiresHelper(w, vars[s.first.helper].f, vs.vs, fuel - 1)
    else
      match s
      case Seq(a, b) =>
        Fires(w, a, vars, fuel)
        || (Exec(w, a, vars, fuel).Normal? && Fires(w, b, Exec(w, a, vars, fuel).vars, fuel))
      case If1(c, body) => GEval(w.p, c, vars) == GVal(BoolV(true)) && Fires(w, body, vars, fuel)
      case If2(c, thn, els) =>
        (GEval(w.p, c, vars) == GVal(BoolV(true)) && Fires(w, thn, vars, fuel))
        || (GEval(w.p, c, vars) == GVal(BoolV(false)) && Fires(w, els, vars, fuel))
      case Block(body) => Fires(w, body, vars, fuel)
      case For(lbl, body) => FiresInLoop(w, lbl, body, vars, fuel)
      case _ => false
  }

  predicate FiresInLoop(w: World, lbl: Name, body: Stmt, vars: Vars, fuel: nat)
    decreases fuel, 0, body, 1
  {
    var r := Leave(Exec(w, body, vars, fuel), vars);
    Fires(w, body, vars, fuel)
    || ((r.Normal? || (r.Continued? && r.lbl == lbl)) && fuel > 0 && FiresInLoop(w, lbl, body, r.vars, fuel - 1))
  }

  predicate FiresHelper(w: World, f: FnId, args: seq<Value>, fuel: nat)
    decreases fuel, 1
  {
    f in w.code && |args| == |w.code[f].params| && Fires(w, w.code[f].body, EntryVars(w.code[f], f, args), fuel)
  }

  /**
   Each way out of the code is a guard or follows a call that gave up. Unless `any` guard is allowed, there are
   no range tests and the tested Vars are current.
   */
  predicate Quiet(any: bool, p: Program, s: Stmt) {
    if RangeTest(s) then any
    else if StaleTest(s) then any || p.current(s.cond.f)
    else if TestedCall(s) then true
    else
      match s
      case Seq(a, b) => Quiet(any, p, a) && Quiet(any, p, b)
      case If1(_, body) => Quiet(any, p, body)
      case If2(_, thn, els) => Quiet(any, p, thn) && Quiet(any, p, els)
      case Block(body) => Quiet(any, p, body)
      case For(_, body) => Quiet(any, p, body)
      case ReturnFail => false
      case _ => true
  }

  predicate AllQuiet(any: bool, w: World) { forall f :: f in w.code ==> Quiet(any, w.p, w.code[f].body) }

  // ---- giving up is reaching a guard that catches something ----

  lemma {:induction false} EscapesByGuards(w: World, s: Stmt, vars: Vars, fuel: nat)
    requires AllQuiet(true, w) && Quiet(true, w.p, s)
    ensures Exec(w, s, vars, fuel).Failed? <==> Fires(w, s, vars, fuel)
    decreases fuel, 0, s, 0
  {
    hide RunHelper, ExecFor, FiresInLoop, FiresHelper;
    if RangeTest(s) || StaleTest(s) {
      GuardEscapes(w, s, vars, fuel);
    } else if TestedCall(s) {
      CallEscapes(w, s, vars, fuel);
    } else {
      match s
      case Seq(a, b) =>
        EscapesByGuards(w, a, vars, fuel);
        var r := Exec(w, a, vars, fuel);
        if r.Normal? { EscapesByGuards(w, b, r.vars, fuel); }
      case If1(c, body) => EscapesByGuards(w, body, vars, fuel);
      case If2(_, thn, els) =>
        EscapesByGuards(w, thn, vars, fuel);
        EscapesByGuards(w, els, vars, fuel);
      case Block(body) => EscapesByGuards(w, body, vars, fuel);
      case For(l, body) => LoopEscapes(w, l, body, vars, fuel);
      case _ =>
    }
  }

  lemma GuardEscapes(w: World, s: Stmt, vars: Vars, fuel: nat)
    requires RangeTest(s) || StaleTest(s)
    ensures Exec(w, s, vars, fuel).Failed? <==> Caught(w.p, s, vars)
  {
    if StaleTest(s) {
      assert GEval(w.p, s.cond, vars) == GVal(BoolV(!w.p.current(s.cond.f)));
    } else {
      RangeTestValue(w.p, TestedName(s), vars);
    }
    assert Exec(w, ReturnFail, vars, fuel) == Failed;
  }

  lemma RangeTestValue(p: Program, n: Name, vars: Vars)
    ensures var g := GOr(GBinary(Less, GVar(n), GInt(-2147483647)), GBinary(Greater, GVar(n), GInt(2147483647)));
            GEval(p, g, vars) == GVal(BoolV(true)) <==>
              n in vars && vars[n].IntV? && !(-2147483647 <= vars[n].i <= 2147483647)
  {
    var lo, hi := GBinary(Less, GVar(n), GInt(-2147483647)), GBinary(Greater, GVar(n), GInt(2147483647));
    assert GEval(p, GInt(-2147483647), vars) == GVal(IntV(-2147483647));
    assert GEval(p, GInt(2147483647), vars) == GVal(IntV(2147483647));
    if n in vars {
      assert GEval(p, GVar(n), vars) == GVal(vars[n]);
      assert GEval(p, lo, vars) == RunBinary(Less, vars[n], IntV(-2147483647));
      assert GEval(p, hi, vars) == RunBinary(Greater, vars[n], IntV(2147483647));
    } else {
      assert GEval(p, GVar(n), vars) == GStuck && GEval(p, lo, vars) == GStuck;
    }
  }

  lemma {:induction false} CallEscapes(w: World, s: Stmt, vars: Vars, fuel: nat)
    requires AllQuiet(true, w) && TestedCall(s)
    ensures Exec(w, s, vars, fuel).Failed? <==> Fires(w, s, vars, fuel)
    decreases fuel, 0, s.first, 0
  {
    hide RunHelper, GEvalAll, FiresHelper, AllQuiet;
    var call := s.first;
    var vs := GEvalAll(w.p, call.args, vars);
    if vs.GVals? && call.helper in vars && vars[call.helper].FnV? && fuel > 0 {
      HelperEscapes(w, vars[call.helper].f, vs.vs, fuel - 1);
    }
    var r := Exec(w, call, vars, fuel);
    if r.Normal? {
      assert GEval(w.p, GVar(call.ok), r.vars) == GVal(r.vars[call.ok]);
      assert Exec(w, ReturnFail, r.vars, fuel) == Failed;
    }
  }

  lemma {:induction false} LoopEscapes(w: World, lbl: Name, body: Stmt, vars: Vars, fuel: nat)
    requires AllQuiet(true, w) && Quiet(true, w.p, body)
    ensures ExecFor(w, lbl, body, vars, fuel).Failed? <==> FiresInLoop(w, lbl, body, vars, fuel)
    decreases fuel, 0, body, 1
  {
    hide Exec, Fires, Quiet, AllQuiet;
    EscapesByGuards(w, body, vars, fuel);
    var r := Leave(Exec(w, body, vars, fuel), vars);
    if fuel > 0 && (r.Normal? || r.Continued?) { LoopEscapes(w, lbl, body, r.vars, fuel - 1); }
  }

  lemma {:induction false} HelperEscapes(w: World, f: FnId, args: seq<Value>, fuel: nat)
    requires AllQuiet(true, w)
    ensures RunHelper(w, f, args, fuel).NotOk? <==> FiresHelper(w, f, args, fuel)
    decreases fuel, 1
  {
    hide Exec, Fires, Quiet;
    if f in w.code { EscapesByGuards(w, w.code[f].body, EntryVars(w.code[f], f, args), fuel); }
  }

  // ---- quiet code has no guard that catches anything ----

  lemma {:induction false} QuietRuns(w: World, s: Stmt, vars: Vars, fuel: nat)
    requires AllQuiet(false, w) && Quiet(false, w.p, s)
    ensures !Fires(w, s, vars, fuel)
    decreases fuel, 0, s, 0
  {
    hide Exec, ExecFor, RunHelper, FiresHelper, FiresInLoop;
    if RangeTest(s) || StaleTest(s) {
    } else if TestedCall(s) {
      var vs := GEvalAll(w.p, s.first.args, vars);
      if vs.GVals? && s.first.helper in vars && vars[s.first.helper].FnV? && fuel > 0 {
        QuietHelper(w, vars[s.first.helper].f, vs.vs, fuel - 1);
      }
    } else {
      match s
      case Seq(a, b) =>
        QuietRuns(w, a, vars, fuel);
        var r := Exec(w, a, vars, fuel);
        if r.Normal? { QuietRuns(w, b, r.vars, fuel); }
      case If1(c, body) => QuietRuns(w, body, vars, fuel);
      case If2(_, thn, els) =>
        QuietRuns(w, thn, vars, fuel);
        QuietRuns(w, els, vars, fuel);
      case Block(body) => QuietRuns(w, body, vars, fuel);
      case For(l, body) => QuietLoop(w, l, body, vars, fuel);
      case _ =>
    }
  }

  lemma {:induction false} QuietLoop(w: World, lbl: Name, body: Stmt, vars: Vars, fuel: nat)
    requires AllQuiet(false, w) && Quiet(false, w.p, body)
    ensures !FiresInLoop(w, lbl, body, vars, fuel)
    decreases fuel, 0, body, 1
  {
    hide Exec, Fires, Quiet, AllQuiet;
    QuietRuns(w, body, vars, fuel);
    var r := Leave(Exec(w, body, vars, fuel), vars);
    if fuel > 0 && (r.Normal? || r.Continued?) { QuietLoop(w, lbl, body, r.vars, fuel - 1); }
  }

  lemma {:induction false} QuietHelper(w: World, f: FnId, args: seq<Value>, fuel: nat)
    requires AllQuiet(false, w)
    ensures !FiresHelper(w, f, args, fuel)
    decreases fuel, 1
  {
    hide Exec, Fires, Quiet;
    if f in w.code { QuietRuns(w, w.code[f].body, EntryVars(w.code[f], f, args), fuel); }
  }

  // ---- what the emitter writes ----

  lemma QuietSeq(any: bool, p: Program, a: Stmt, b: Stmt)
    requires Quiet(any, p, a) && Quiet(any, p, b)
    ensures Quiet(any, p, Seq(a, b))
  {}

  /** Statements with no way out of their own. */
  lemma QuietParts(any: bool, p: Program, n: Name, g: GExpr, t: Type)
    ensures Quiet(any, p, Skip) && Quiet(any, p, Decl(n, t)) && Quiet(any, p, Define(n, g))
    ensures Quiet(any, p, Assign(n, g)) && Quiet(any, p, Continue(n)) && Quiet(any, p, Break(n))
  {}

  lemma {:induction false} EmitsQuiet(any: bool, c: Context, e: Expr, locals: Locals, n: Name)
    requires (any || (Steady(c.p) && !Ranged(e)))
    ensures Quiet(any, c.p, Emit(c, e, locals, n).code)
    decreases e, 2
  {
    hide *;
    match e
    case Let(_, _) => LetQuiet(any, c, e, locals, n);
    case Loop(_, _, _, _) => LoopQuiet(any, c, e, locals, n);
    case If(_, _, _) => IfQuiet(any, c, e, locals, n);
    case Call(_, _) => CallQuiet(any, c, e, locals, n);
    case _ => PlainQuiet(any, c, e, locals, n);
  }

  lemma {:induction false} PlainQuiet(any: bool, c: Context, e: Expr, locals: Locals, n: Name)
    requires (any || (Steady(c.p) && !Ranged(e))) && !e.Let? && !e.Loop? && !e.If? && !e.Call?
    ensures Quiet(any, c.p, Emit(c, e, locals, n).code)
    decreases e, 1
  {
    hide Quiet, Steady, UnaryCode, BinaryCode;
    QuietParts(any, c.p, n, GInt(0), IntT);
    match e
    case Do(ret) => if !ret.Do? { EmitsQuiet(any, c, ret, locals, n); }
    case Host1(_, arg) => EmitsQuiet(any, c, arg, locals, n);
    case Host2(_, left, right) => PairQuiet(any, c, e, left, right, locals, n);
    case CoreEquals(left, right) => PairQuiet(any, c, e, left, right, locals, n);
    case _ =>
  }

  lemma {:induction false} PairQuiet(any: bool, c: Context, e: Expr, left: Expr, right: Expr, locals: Locals, n: Name)
    requires (any || (Steady(c.p) && !Ranged(left) && !Ranged(right))) && left < e && right < e
    ensures var a := Emit(c, left, locals, n); Quiet(any, c.p, Seq(a.code, Emit(c, right, locals, a.next).code))
    decreases e, 0
  {
    hide Quiet, Steady, Emit, Ranged;
    var a := Emit(c, left, locals, n);
    EmitsQuiet(any, c, left, locals, n);
    EmitsQuiet(any, c, right, locals, a.next);
    QuietSeq(any, c.p, a.code, Emit(c, right, locals, a.next).code);
  }

  lemma {:induction false} LetQuiet(any: bool, c: Context, e: Expr, locals: Locals, n: Name)
    requires (any || (Steady(c.p) && !Ranged(e))) && e.Let?
    ensures Quiet(any, c.p, Emit(c, e, locals, n).code)
    decreases e, 0
  {
    hide Steady, EmitBindings, Quiet;
    BindingsQuiet(any, c, e.bindings, locals, n + 1);
    var b := EmitBindings(c, e.bindings, locals, n + 1);
    EmitsQuiet(any, c, e.body, b.locals, b.next);
    var a := Emit(c, e.body, b.locals, b.next);
    BoundQuiet(any, c.p, n, b.code, a.code, a.value);
  }

  lemma BoundQuiet(any: bool, p: Program, n: Name, a: Stmt, b: Stmt, g: GExpr)
    requires Quiet(any, p, a) && Quiet(any, p, b)
    ensures forall t :: Quiet(any, p, Seq(Decl(n, t), Block(Seq(a, Seq(b, Assign(n, g))))))
  {
    QuietSeq(any, p, b, Assign(n, g));
    BlockQuiet(any, p, a, Seq(b, Assign(n, g)));
    forall t ensures Quiet(any, p, Seq(Decl(n, t), Block(Seq(a, Seq(b, Assign(n, g)))))) {
      QuietSeq(any, p, Decl(n, t), Block(Seq(a, Seq(b, Assign(n, g)))));
    }
  }

  lemma {:induction false} LoopQuiet(any: bool, c: Context, e: Expr, locals: Locals, n: Name)
    requires (any || (Steady(c.p) && !Ranged(e))) && e.Loop?
    ensures Quiet(any, c.p, Emit(c, e, locals, n).code)
    decreases e, 0
  {
    hide Steady, EmitBindings, EmitTail, Quiet;
    BindingsQuiet(any, c, e.bindings, locals, n + 2);
    var b := EmitBindings(c, e.bindings, locals, n + 2);
    TailQuiet(any, c, e.body, b.locals, b.names, n, n + 1, b.next);
    var tail := EmitTail(c, e.body, b.locals, b.names, n, n + 1, b.next);
    GuardsQuiet(any, c.p, b.names, e.guarded);
    RoundQuiet(any, c.p, n, n + 1, b.code, if e.guarded then Int32Guards(b.names) else Skip, tail.code);
  }

  lemma {:induction false} GuardsQuiet(any: bool, p: Program, names: seq<Name>, guarded: bool)
    requires any || !guarded
    ensures Quiet(any, p, if guarded then Int32Guards(names) else Skip)
  {
    if guarded && names != [] {
      GuardsQuiet(any, p, names[1..], guarded);
      var g := Int32Guards(names);
      assert RangeTest(g.first) && !TestedCall(g);
      QuietSeq(any, p, g.first, g.second);
    }
  }

  lemma RoundQuiet(any: bool, p: Program, n: Name, lbl: Name, a: Stmt, guards: Stmt, body: Stmt)
    requires Quiet(any, p, a) && Quiet(any, p, guards) && Quiet(any, p, body)
    ensures Quiet(any, p, Seq(Decl(n, IntT), Block(Seq(a, For(lbl, Seq(guards, body))))))
  {
    QuietSeq(any, p, guards, body);
    BlockQuiet(any, p, a, For(lbl, Seq(guards, body)));
    QuietSeq(any, p, Decl(n, IntT), Block(Seq(a, For(lbl, Seq(guards, body)))));
  }

  lemma {:induction false} IfQuiet(any: bool, c: Context, e: Expr, locals: Locals, n: Name)
    requires (any || (Steady(c.p) && !Ranged(e))) && e.If?
    ensures Quiet(any, c.p, Emit(c, e, locals, n).code)
    decreases e, 0
  {
    hide Steady;
    EmitsQuiet(any, c, e.test, locals, n + 1);
    var t := Emit(c, e.test, locals, n + 1);
    EmitsQuiet(any, c, e.thn, locals, t.next);
    var a := Emit(c, e.thn, locals, t.next);
    EmitsQuiet(any, c, e.els, locals, a.next);
    var b := Emit(c, e.els, locals, a.next);
    BranchesQuiet(any, c.p, n, t.code, t.value, a.code, a.value, b.code, b.value);
  }

  lemma BranchesQuiet(any: bool, p: Program, n: Name, test: Stmt, g: GExpr, a: Stmt, ga: GExpr, b: Stmt, gb: GExpr)
    requires Quiet(any, p, test) && Quiet(any, p, a) && Quiet(any, p, b)
    ensures forall t :: Quiet(any, p, Seq(Decl(n, t), Seq(test, If2(g, Seq(a, Assign(n, ga)), Seq(b, Assign(n, gb))))))
  {
    QuietSeq(any, p, a, Assign(n, ga));
    QuietSeq(any, p, b, Assign(n, gb));
    var s := If2(g, Seq(a, Assign(n, ga)), Seq(b, Assign(n, gb)));
    assert Quiet(any, p, s);
    QuietSeq(any, p, test, s);
    forall t ensures Quiet(any, p, Seq(Decl(n, t), Seq(test, s))) { QuietSeq(any, p, Decl(n, t), Seq(test, s)); }
  }

  lemma {:induction false} CallQuiet(any: bool, c: Context, e: Expr, locals: Locals, n: Name)
    requires (any || (Steady(c.p) && !Ranged(e))) && e.Call?
    ensures Quiet(any, c.p, Emit(c, e, locals, n).code)
    decreases e, 0
  {
    hide EmitArgs, Quiet;
    ArgsQuiet(any, c, e.args, locals, n);
    var a := EmitArgs(c, e.args, locals, n);
    var call := CallHelper(a.next, a.next + 1, HelperName(c, e.f), a.values);
    TestedCallQuiet(any, c, e.f, call);
    var tested := Seq(call, If1(GNot(GVar(call.ok)), ReturnFail));
    QuietSeq(any, c.p, CalleeGuard(c, e.f), tested);
    QuietSeq(any, c.p, a.code, Seq(CalleeGuard(c, e.f), tested));
  }

  lemma TestedCallQuiet(any: bool, c: Context, f: FnId, call: Stmt)
    requires (any || Steady(c.p)) && call.CallHelper?
    ensures Quiet(any, c.p, CalleeGuard(c, f))
    ensures Quiet(any, c.p, Seq(call, If1(GNot(GVar(call.ok)), ReturnFail)))
  {
    assert TestedCall(Seq(call, If1(GNot(GVar(call.ok)), ReturnFail)));
  }

  lemma {:induction false} ArgsQuiet(any: bool, c: Context, es: Exprs, locals: Locals, n: Name)
    requires (any || (Steady(c.p) && !RangedA(es)))
    ensures Quiet(any, c.p, EmitArgs(c, es, locals, n).code)
    decreases es, 0
  {
    if es.Exprs? {
      EmitsQuiet(any, c, es.head, locals, n);
      ArgsQuiet(any, c, es.tail, locals, Emit(c, es.head, locals, n).next);
    }
  }

  lemma {:induction false} BindingsQuiet(any: bool, c: Context, bs: Bindings, locals: Locals, n: Name)
    requires (any || (Steady(c.p) && !RangedB(bs)))
    ensures Quiet(any, c.p, EmitBindings(c, bs, locals, n).code)
    decreases bs, 0
  {
    if bs.Binding? {
      EmitsQuiet(any, c, bs.init, locals, n);
      var a := Emit(c, bs.init, locals, n);
      var local := TypedLocal(a.next, TypeOr(ExprType(c.p, c.self, bs.init, TypesOf(locals))));
      BindingsQuiet(any, c, bs.rest, locals[bs.sym := local], a.next + 1);
    }
  }

  lemma {:induction false} TailQuiet(any: bool, c: Context, e: Expr, locals: Locals, names: seq<Name>, result: Name,
          lbl: Name, n: Name)
    requires (any || (Steady(c.p) && !Ranged(e)))
    ensures Quiet(any, c.p, EmitTail(c, e, locals, names, result, lbl, n).code)
    decreases e, 4
  {
    hide Quiet, Steady, Emit, EmitBindings, EmitNext, AssignAll, EmitLast;
    match e
    case Do(ret) => if !ret.Do? { TailQuiet(any, c, ret, locals, names, result, lbl, n); }
        else { LastQuiet(any, c, e, locals, result, lbl, n); }
    case Recur(_, args) =>
      NextQuiet(any, c, args, locals, n);
      var a := EmitNext(c, args, locals, n);
      AssignsQuiet(any, c.p, names, a.names);
      QuietParts(any, c.p, lbl, GInt(0), IntT);
      QuietSeq(any, c.p, AssignAll(names, a.names), Continue(lbl));
      QuietSeq(any, c.p, a.code, Seq(AssignAll(names, a.names), Continue(lbl)));
    case If(_, _, _) => IfTailQuiet(any, c, e, locals, names, result, lbl, n);
    case Let(bs, body) =>
      BindingsQuiet(any, c, bs, locals, n);
      var b := EmitBindings(c, bs, locals, n);
      TailQuiet(any, c, body, b.locals, names, result, lbl, b.next);
      BlockQuiet(any, c.p, b.code, EmitTail(c, body, b.locals, names, result, lbl, b.next).code);
    case _ => LastQuiet(any, c, e, locals, result, lbl, n);
  }

  lemma BlockQuiet(any: bool, p: Program, a: Stmt, b: Stmt)
    requires Quiet(any, p, a) && Quiet(any, p, b)
    ensures Quiet(any, p, Block(Seq(a, b)))
  {}

  lemma {:induction false} IfTailQuiet(any: bool, c: Context, e: Expr, locals: Locals, names: seq<Name>, result: Name,
          lbl: Name, n: Name)
    requires (any || (Steady(c.p) && !Ranged(e))) && e.If?
    ensures Quiet(any, c.p, EmitTail(c, e, locals, names, result, lbl, n).code)
    decreases e, 3
  {
    hide Steady, Emit;
    EmitsQuiet(any, c, e.test, locals, n);
    var t := Emit(c, e.test, locals, n);
    TailQuiet(any, c, e.thn, locals, names, result, lbl, t.next);
    var a := EmitTail(c, e.thn, locals, names, result, lbl, t.next);
    TailQuiet(any, c, e.els, locals, names, result, lbl, a.next);
    QuietSeq(any, c.p, t.code, If2(t.value, a.code, EmitTail(c, e.els, locals, names, result, lbl, a.next).code));
  }

  lemma {:induction false} LastQuiet(any: bool, c: Context, e: Expr, locals: Locals, result: Name, lbl: Name, n: Name)
    requires (any || (Steady(c.p) && !Ranged(e)))
    ensures Quiet(any, c.p, EmitLast(c, e, locals, result, lbl, n).code)
    decreases e, 3
  {
    hide Steady, Emit, Ranged;
    EmitsQuiet(any, c, e, locals, n);
    var a := Emit(c, e, locals, n);
    QuietSeq(any, c.p, a.code, Seq(Assign(result, a.value), Break(lbl)));
  }

  lemma {:induction false} NextQuiet(any: bool, c: Context, es: Exprs, locals: Locals, n: Name)
    requires (any || (Steady(c.p) && !RangedA(es)))
    ensures Quiet(any, c.p, EmitNext(c, es, locals, n).code)
    decreases es, 0
  {
    if es.Exprs? {
      EmitsQuiet(any, c, es.head, locals, n);
      NextQuiet(any, c, es.tail, locals, Emit(c, es.head, locals, n).next + 1);
    }
  }

  lemma {:induction false} AssignsQuiet(any: bool, p: Program, names: seq<Name>, values: seq<Name>)
    ensures Quiet(any, p, AssignAll(names, values))
  {
    if names != [] && values != [] { AssignsQuiet(any, p, names[1..], values[1..]); }
  }

  lemma {:induction false} CalleesQuiet(any: bool, p: Program, callees: seq<FnId>, n: Name)
    ensures Quiet(any, p, CalleeCode(callees, n))
  {
    if callees != [] { CalleesQuiet(any, p, callees[1..], n + 1); }
  }

  lemma HelperQuiet(any: bool, p: Program, f: FnId, n: Name)
    requires (any || Steady(p)) && f in p.fns
    ensures Quiet(any, p, EmitHelper(p, f, n).body)
  {
    hide Quiet, Emit, CalleeCode, Int32Guards, UsesSelf, ParamLocals, HelperContext;
    var fn := p.fns[f];
    var k := |fn.params|;
    var c, params := HelperContext(p, f, n), Fresh(n + 1, k);
    var locals, start := ParamLocals(fn.params, params), n + 1 + k + |fn.callees|;
    assert c.p == p by { HelperContextProgram(p, f, n); }
    EmitsQuiet(any, c, fn.body, locals, start);
    CalleesQuiet(any, p, fn.callees, n + 1 + k);
    GuardsQuiet(any, p, params, fn.int32Params);
    SelfGuardQuiet(any, p, f);
    var selfGuard := if UsesSelf(fn.body, f) && fn.guarded then If1(GStale(f), ReturnFail) else Skip;
    var rest := Seq(CalleeCode(fn.callees, n + 1 + k), Emit(c, fn.body, locals, start).code);
    QuietSeq(any, p, CalleeCode(fn.callees, n + 1 + k), Emit(c, fn.body, locals, start).code);
    QuietSeq(any, p, selfGuard, rest);
    QuietSeq(any, p, if fn.int32Params then Int32Guards(params) else Skip, Seq(selfGuard, rest));
  }

  lemma HelperContextProgram(p: Program, f: FnId, n: Name)
    requires f in p.fns
    ensures HelperContext(p, f, n).p == p
  {}

  lemma SelfGuardQuiet(any: bool, p: Program, f: FnId)
    requires (any || Steady(p)) && f in p.fns
    ensures Quiet(any, p, Skip) && Quiet(any, p, If1(GStale(f), ReturnFail))
  {
    assert StaleTest(If1(GStale(f), ReturnFail));
  }

  // ---- the result ----

  lemma GeneratedQuiet(any: bool, w: World)
    requires Int64Functions.Generated(w) && (any || Steady(w.p))
    ensures AllQuiet(any, w)
  {
    hide WellTyped, EmitHelper, Quiet, Steady;
    forall g | g in w.code ensures Quiet(any, w.p, w.code[g].body) {
      Int64Functions.CompiledHelper(w, g);
      HelperQuiet(any, w.p, g, w.starts[g]);
    }
  }

  /** A helper gives up exactly when its run reaches a guard that catches something. */
  lemma GivesUpOnGuards(w: World, f: FnId, args: seq<Value>, fuel: nat)
    requires Int64Functions.Generated(w)
    ensures RunHelper(w, f, args, fuel).NotOk? <==> FiresHelper(w, f, args, fuel)
  {
    hide RunHelper, FiresHelper, AllQuiet;
    GeneratedQuiet(true, w);
    HelperEscapes(w, f, args, fuel);
  }

  /** And otherwise it is exact: it returns a value precisely when the body has one, and that value. */
  lemma HelperIsExact(w: World, f: FnId, args: seq<Value>, fuel: nat, v: int64)
    requires Int64Functions.Generated(w) && Int64Functions.Int64Args(w, f, args)
    ensures RunHelper(w, f, args, fuel) == Ok(v) <==>
            EvalFn(w.p, w.p.fns[f], args, fuel) == Val(IntV(v)) && !FiresHelper(w, f, args, fuel)
  {
    hide RunHelper, EvalFn, WellTyped, FiresHelper;
    GivesUpOnGuards(w, f, args, fuel);
    Int64Functions.HelperCorrect(w, f, args, fuel);
  }

  /** Where every Var is current and nothing is range tested, no guard can catch anything. */
  lemma SteadyHelperIsExact(w: World, f: FnId, args: seq<Value>, fuel: nat, v: int64)
    requires Int64Functions.Generated(w) && Steady(w.p) && Int64Functions.Int64Args(w, f, args)
    ensures !RunHelper(w, f, args, fuel).NotOk?
    ensures RunHelper(w, f, args, fuel) == Ok(v) <==> EvalFn(w.p, w.p.fns[f], args, fuel) == Val(IntV(v))
  {
    hide RunHelper, EvalFn, WellTyped, Steady, FiresHelper, AllQuiet;
    GeneratedQuiet(false, w);
    QuietHelper(w, f, args, fuel);
    GivesUpOnGuards(w, f, args, fuel);
    HelperIsExact(w, f, args, fuel, v);
  }
}
