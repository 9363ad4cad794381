/** Go constant expressions in emitted code: they are the literal parts of the source. */
module Int64Constants {
  import opened Objects
  import opened Int64Source
  import opened GoCode
  import opened Int64Emitter
  import opened GoRules
  import I = Int64

  predicate SameConstants(a: Emitted, e: Expr) {
    Constant(a.value) == Literal(e) && (CodeConstantsOk(a.code) && ConstantsOk(a.value) <==> LiteralsOk(e))
  }

  lemma {:induction false} EmitsConstants(c: Context, e: Expr, locals: Locals, n: Name)
    requires Formed(e)
    ensures SameConstants(Emit(c, e, locals, n), e)
    decreases e, 2
  {
    hide *;
    match e
    case Let(_, _) => ConstantsOfLet(c, e, locals, n);
    case Loop(_, _, _, _) => ConstantsOfLoop(c, e, locals, n);
    case If(_, _, _) => ConstantsOfIf(c, e, locals, n);
    case Call(_, _) => ConstantsOfCall(c, e, locals, n);
    case Host1(_, _) => ConstantsOfHost1(c, e, locals, n);
    case Host2(_, _, _) => ConstantsOfHost2(c, e, locals, n);
    case _ => ConstantsOfRest(c, e, locals, n);
  }

  lemma {:induction false} ConstantsOfRest(c: Context, e: Expr, locals: Locals, n: Name)
    requires Formed(e) && !e.Let? && !e.Loop? && !e.If? && !e.Call? && !e.Host1? && !e.Host2?
    ensures SameConstants(Emit(c, e, locals, n), e)
    decreases e, 0
  {
    match e
    case Do(r) => EmitsConstants(c, r, locals, n);
    case CoreEquals(l, r) =>
      EmitsConstants(c, l, locals, n);
      EmitsConstants(c, r, locals, Emit(c, l, locals, n).next);
    case _ =>
  }

  lemma {:induction false} ConstantsOfHost1(c: Context, e: Expr, locals: Locals, n: Name)
    requires Formed(e) && e.Host1?
    ensures SameConstants(Emit(c, e, locals, n), e)
    decreases e, 0
  {
    EmitsConstants(c, e.arg, locals, n);
    UnaryConstants(e.op1, Emit(c, e.arg, locals, n).value);
  }

  lemma UnaryConstants(op: Op1, g: GExpr)
    ensures var h := UnaryCode(op, g);
            && Constant(h) == (if Constant(g).None? then None else Literal1(op, Constant(g).value))
            && (ConstantsOk(h) <==> ConstantsOk(g) && (Constant(h).Some? ==> I.Fits(Constant(h).value)))
  {}

  lemma {:induction false} ConstantsOfHost2(c: Context, e: Expr, locals: Locals, n: Name)
    requires Formed(e) && e.Host2?
    ensures SameConstants(Emit(c, e, locals, n), e)
    decreases e, 0
  {
    hide UnaryCode, BinaryCode, Constant, ConstantsOk;
    EmitsConstants(c, e.left, locals, n);
    var a := Emit(c, e.left, locals, n);
    EmitsConstants(c, e.right, locals, a.next);
    BinaryConstants(e.op2, a.value, Emit(c, e.right, locals, a.next).value);
  }

  lemma BinaryConstants(op: Op2, g: GExpr, k: GExpr)
    ensures var h := BinaryCode(op, g, k);
            && Constant(h) == (if Constant(g).None? || Constant(k).None? then None
                               else Literal2(op, Constant(g).value, Constant(k).value))
            && (ConstantsOk(h) <==>
                  && ConstantsOk(g) && ConstantsOk(k) && (Constant(h).Some? ==> I.Fits(Constant(h).value))
                  && !((op.Quotient? || op.Remainder?) && Constant(k) == Some(0)))
  {
    hide Literal2, Fold, BinaryCode;
    var op' := BinaryOperator(op, g, k);
    if Constant(g).Some? && Constant(k).Some? { SameFold(op, op', g, k, Constant(g).value, Constant(k).value); }
  }

  lemma BinaryOperator(op: Op2, g: GExpr, k: GExpr) returns (op': GoBinary)
    ensures BinaryCode(op, g, k) == GBinary(op', g, k)
    ensures op'.Div? || op'.Rem? <==> op.Quotient? || op.Remainder?
  {
    op' := BinaryCode(op, g, k).binary;
  }

  lemma SameFold(op: Op2, op': GoBinary, g: GExpr, k: GExpr, x: int, y: int)
    requires BinaryCode(op, g, k) == GBinary(op', g, k)
    ensures Fold(op', x, y) == Literal2(op, x, y)
  {
    hide I.Quo;
  }

  lemma {:induction false} ConstantsOfIf(c: Context, e: Expr, locals: Locals, n: Name)
    requires Formed(e) && e.If?
    ensures SameConstants(Emit(c, e, locals, n), e)
    decreases e, 0
  {
    hide Constant, ConstantsOk;
    EmitsConstants(c, e.test, locals, n + 1);
    var t := Emit(c, e.test, locals, n + 1);
    EmitsConstants(c, e.thn, locals, t.next);
    var a := Emit(c, e.thn, locals, t.next);
    EmitsConstants(c, e.els, locals, a.next);
    var b := Emit(c, e.els, locals, a.next);
    VariableConstants(n);
    AssignsConstants(a, n);
    AssignsConstants(b, n);
    var thn, els := Seq(a.code, Assign(n, a.value)), Seq(b.code, Assign(n, b.value));
    BranchConstants(t.code, t.value, thn, els);
    DeclConstants(n, TypeOr(ExprType(c.p, c.self, e, TypesOf(locals))), Seq(t.code, If2(t.value, thn, els)));
  }

  /** Code that ends in an assignment of its value. */
  lemma AssignsConstants(a: Emitted, n: Name)
    ensures CodeConstantsOk(Seq(a.code, Assign(n, a.value))) <==> CodeConstantsOk(a.code) && ConstantsOk(a.value)
  {
    hide ConstantsOk;
  }

  lemma BranchConstants(t: Stmt, g: GExpr, a: Stmt, b: Stmt)
    ensures CodeConstantsOk(Seq(t, If2(g, a, b))) <==>
            CodeConstantsOk(t) && ConstantsOk(g) && CodeConstantsOk(a) && CodeConstantsOk(b)
  {
    hide ConstantsOk;
    assert CodeConstantsOk(If2(g, a, b)) <==> ConstantsOk(g) && CodeConstantsOk(a) && CodeConstantsOk(b);
  }

  lemma BlockConstants(a: Stmt, b: Stmt)
    ensures CodeConstantsOk(Block(Seq(a, b))) <==> CodeConstantsOk(a) && CodeConstantsOk(b)
  {}

  lemma RoundConstants(lbl: Name, guards: Stmt, body: Stmt)
    ensures CodeConstantsOk(For(lbl, Seq(guards, body))) <==> CodeConstantsOk(guards) && CodeConstantsOk(body)
  {}

  lemma VariableConstants(n: Name)
    ensures Constant(GVar(n)) == None && ConstantsOk(GVar(n)) && ConstantsOk(GNot(GVar(n)))
  {}

  lemma {:induction false} ConstantsOfLet(c: Context, e: Expr, locals: Locals, n: Name)
    requires Formed(e) && e.Let?
    ensures SameConstants(Emit(c, e, locals, n), e)
    decreases e, 0
  {
    hide Constant, ConstantsOk;
    BindingConstants(c, e.bindings, locals, n + 1);
    var b := EmitBindings(c, e.bindings, locals, n + 1);
    EmitsConstants(c, e.body, b.locals, b.next);
    var a := Emit(c, e.body, b.locals, b.next);
    VariableConstants(n);
    AssignsConstants(a, n);
    BlockConstants(b.code, Seq(a.code, Assign(n, a.value)));
    DeclConstants(n, TypeOr(ExprType(c.p, c.self, e, TypesOf(locals))),
      Block(Seq(b.code, Seq(a.code, Assign(n, a.value)))));
  }

  lemma {:induction false} ConstantsOfLoop(c: Context, e: Expr, locals: Locals, n: Name)
    requires Formed(e) && e.Loop?
    ensures SameConstants(Emit(c, e, locals, n), e)
    decreases e, 0
  {
    hide Constant, ConstantsOk, EmitTail, EmitBindings, Int32Guards;
    BindingConstants(c, e.bindings, locals, n + 2);
    var b := EmitBindings(c, e.bindings, locals, n + 2);
    TailConstants(c, e.body, b.locals, b.names, n, n + 1, |Syms(e.bindings)|, b.next);
    GuardConstants(b.names);
    VariableConstants(n);
    var guards := if e.guarded then Int32Guards(b.names) else Skip;
    var tail := EmitTail(c, e.body, b.locals, b.names, n, n + 1, b.next);
    RoundConstants(n + 1, guards, tail.code);
    BlockConstants(b.code, For(n + 1, Seq(guards, tail.code)));
    DeclConstants(n, IntT, Block(Seq(b.code, For(n + 1, Seq(guards, tail.code)))));
  }

  lemma {:induction false} GuardConstants(names: seq<Name>)
    ensures CodeConstantsOk(Int32Guards(names))
  {
    if names != [] {
      GuardConstants(names[1..]);
      TestConstants(names[0], -2147483647);
      TestConstants(names[0], 2147483647);
    }
  }

  lemma TestConstants(n: Name, k: I.int64)
    ensures ConstantsOk(GBinary(Less, GVar(n), GInt(k))) && ConstantsOk(GBinary(Greater, GVar(n), GInt(k)))
  {
    assert ConstantsOk(GInt(k)) && ConstantsOk(GVar(n));
  }

  lemma DeclConstants(n: Name, t: Type, s: Stmt)
    ensures CodeConstantsOk(Seq(Decl(n, t), s)) <==> CodeConstantsOk(s)
  {}

  lemma {:induction false} ConstantsOfCall(c: Context, e: Expr, locals: Locals, n: Name)
    requires Formed(e) && e.Call?
    ensures SameConstants(Emit(c, e, locals, n), e)
    decreases e, 0
  {
    hide ConstantsOk;
    ArgConstants(c, e.args, locals, n);
    var a := EmitArgs(c, e.args, locals, n);
    VariableConstants(a.next);
    VariableConstants(a.next + 1);
    CallConstants(a, CalleeGuard(c, e.f), HelperName(c, e.f));
  }

  lemma CallConstants(a: EmittedArgs, guard: Stmt, helper: Name)
    requires guard.Skip? || (guard.If1? && guard.cond.GStale? && guard.body.ReturnFail?)
    ensures var call, test := CallHelper(a.next, a.next + 1, helper, a.values), If1(GNot(GVar(a.next + 1)), ReturnFail);
            CodeConstantsOk(Seq(a.code, Seq(guard, Seq(call, test)))) <==>
            CodeConstantsOk(a.code) && AllConstantsOk(a.values)
  {
    VariableConstants(a.next + 1);
    assert ConstantsOk(GStale(0));
    var call, test := CallHelper(a.next, a.next + 1, helper, a.values), If1(GNot(GVar(a.next + 1)), ReturnFail);
    assert CodeConstantsOk(test);
    assert CodeConstantsOk(guard);
    assert CodeConstantsOk(Seq(call, test)) <==> AllConstantsOk(a.values);
    assert CodeConstantsOk(Seq(guard, Seq(call, test))) <==> AllConstantsOk(a.values);
  }

  lemma {:induction false} ArgConstants(c: Context, es: Exprs, locals: Locals, n: Name)
    requires FormedA(es)
    ensures var a := EmitArgs(c, es, locals, n);
            CodeConstantsOk(a.code) && AllConstantsOk(a.values) <==> LiteralsOkA(es)
    decreases es, 0
  {
    if es.Exprs? {
      EmitsConstants(c, es.head, locals, n);
      var a := Emit(c, es.head, locals, n);
      ArgConstants(c, es.tail, locals, a.next);
      var b := EmitArgs(c, es.tail, locals, a.next);
      assert ([a.value] + b.values)[1..] == b.values;
      assert AllConstantsOk([a.value] + b.values) <==> ConstantsOk(a.value) && AllConstantsOk(b.values);
    }
  }

  lemma {:induction false} BindingConstants(c: Context, bs: Bindings, locals: Locals, n: Name)
    requires FormedB(bs)
    ensures CodeConstantsOk(EmitBindings(c, bs, locals, n).code) <==> LiteralsOkB(bs)
    decreases bs, 0
  {
    hide Constant, ConstantsOk;
    if bs.Binding? {
      EmitsConstants(c, bs.init, locals, n);
      var a := Emit(c, bs.init, locals, n);
      var local := TypedLocal(a.next, TypeOr(ExprType(c.p, c.self, bs.init, TypesOf(locals))));
      BindingConstants(c, bs.rest, locals[bs.sym := local], a.next + 1);
      DefinesConstants(a, a.next);
    }
  }

  lemma DefinesConstants(a: Emitted, n: Name)
    ensures CodeConstantsOk(Seq(a.code, Define(n, a.value))) <==> CodeConstantsOk(a.code) && ConstantsOk(a.value)
  {
    hide ConstantsOk;
  }

  lemma {:induction false} TailConstants(c: Context, e: Expr, locals: Locals, names: seq<Name>, result: Name, lbl: Name,
          arity: nat, n: Name)
    requires FormedTail(e, arity)
    ensures CodeConstantsOk(EmitTail(c, e, locals, names, result, lbl, n).code) <==> LiteralsOk(e)
    decreases e, 4
  {
    hide Constant, ConstantsOk, Emit, EmitBindings, EmitNext, AssignAll, EmitLast;
    match e
    case Do(r) =>
      TailConstants(c, r, locals, names, result, lbl, arity, n);
      DoLiterals(r);
    case Recur(_, args) =>
      NextConstants(c, args, locals, n);
      var a := EmitNext(c, args, locals, n);
      AssignConstants(names, a.names);
      assert CodeConstantsOk(Seq(AssignAll(names, a.names), Continue(lbl)));
      RecurLiterals(e);
    case If(test, thn, els) =>
      EmitsConstants(c, test, locals, n);
      var t := Emit(c, test, locals, n);
      TailConstants(c, thn, locals, names, result, lbl, arity, t.next);
      var a := EmitTail(c, thn, locals, names, result, lbl, t.next);
      TailConstants(c, els, locals, names, result, lbl, arity, a.next);
      BranchConstants(t.code, t.value, a.code, EmitTail(c, els, locals, names, result, lbl, a.next).code);
    case Let(bs, body) =>
      BindingConstants(c, bs, locals, n);
      var b := EmitBindings(c, bs, locals, n);
      TailConstants(c, body, b.locals, names, result, lbl, arity, b.next);
      BlockConstants(b.code, EmitTail(c, body, b.locals, names, result, lbl, b.next).code);
    case _ => LastConstants(c, e, locals, result, lbl, n);
  }

  /** A literal fits if it is well formed, so `do` around it adds nothing. */
  lemma DoLiterals(r: Expr)
    ensures LiteralsOk(Do(r)) <==> LiteralsOk(r)
  {}

  lemma RecurLiterals(e: Expr)
    ensures e.Recur? ==> (LiteralsOk(e) <==> LiteralsOkA(e.args))
  {}

  lemma {:induction false} LastConstants(c: Context, e: Expr, locals: Locals, result: Name, lbl: Name, n: Name)
    requires Formed(e)
    ensures CodeConstantsOk(EmitLast(c, e, locals, result, lbl, n).code) <==> LiteralsOk(e)
    decreases e, 3
  {
    hide Constant, ConstantsOk, Emit;
    EmitsConstants(c, e, locals, n);
    var a := Emit(c, e, locals, n);
    assert CodeConstantsOk(Seq(Assign(result, a.value), Break(lbl))) <==> ConstantsOk(a.value);
  }

  lemma {:induction false} NextConstants(c: Context, es: Exprs, locals: Locals, n: Name)
    requires FormedA(es)
    ensures CodeConstantsOk(EmitNext(c, es, locals, n).code) <==> LiteralsOkA(es)
    decreases es, 0
  {
    hide Constant, ConstantsOk;
    if es.Exprs? {
      EmitsConstants(c, es.head, locals, n);
      var a := Emit(c, es.head, locals, n);
      NextConstants(c, es.tail, locals, a.next + 1);
      DefinesConstants(a, a.next);
    }
  }

  lemma {:induction false} AssignConstants(names: seq<Name>, values: seq<Name>)
    ensures CodeConstantsOk(AssignAll(names, values))
  {
    if names != [] && values != [] {
      VariableConstants(values[0]);
      AssignConstants(names[1..], values[1..]);
    }
  }
}
