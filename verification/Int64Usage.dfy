/**
 Declared variables and labels in emitted code: each is declared once; the temporaries and labels are
 always used, and the variable of a binding is used exactly where the source mentions the binding.
 */
module Int64Usage {
  import opened Int64Source
  import opened GoCode
  import opened Int64Emitter
  import opened GoRules
  import I = Int64

  function Total(a: Emitted): set<Name> { CodeUses(a.code) + Uses(a.value) }

  function LocalName(locals: Locals, s: Sym): Name { if s in locals then locals[s].name else 0 }

  /** Everything visible has a name below `n`. */
  ghost predicate Visible(c: Context, locals: Locals, n: Name) {
    && 0 < n
    && (forall s :: LocalName(locals, s) < n)
    && (forall f :: HelperName(c, f) < n)
  }

  /** The variable `m` stands for the target and for nothing else. */
  ghost predicate Stands(c: Context, locals: Locals, m: Name, t: Target) {
    && (forall s :: LocalName(locals, s) == m <==> t == Symbol(s))
    && (forall f :: HelperName(c, f) == m <==> t == Callee(f))
  }

  predicate Between(names: set<Name>, lo: Name, hi: Name) { forall m :: m in names ==> lo <= m < hi }

  // ---- what each construct declares and uses ----

  lemma SeqSets(a: Stmt, b: Stmt)
    ensures Declares(Seq(a, b)) == Declares(a) + Declares(b) && CodeUses(Seq(a, b)) == CodeUses(a) + CodeUses(b)
  {}

  /** Both for the code and for the value of an expression that is made of two operands. */
  lemma PairSets(c: Context, e: Expr, locals: Locals, n: Name)
    requires e.Host2? || e.CoreEquals?
    ensures var a := Emit(c, e.left, locals, n);
            var b := Emit(c, e.right, locals, a.next);
            var r := Emit(c, e, locals, n);
            r.code == Seq(a.code, b.code) && Total(r) == Total(a) + Total(b) && r.next == b.next
  {
    hide BinaryCode;
    var a := Emit(c, e.left, locals, n);
    var b := Emit(c, e.right, locals, a.next);
    if e.Host2? { BinaryUses(e.op2, a.value, b.value); }
  }

  lemma UnaryUses(op: Op1, g: GExpr)
    ensures Uses(UnaryCode(op, g)) == Uses(g)
  {}

  lemma BinaryUses(op: Op2, g: GExpr, h: GExpr)
    ensures Uses(BinaryCode(op, g, h)) == Uses(g) + Uses(h)
  {}

  lemma IfSets(c: Context, e: Expr, locals: Locals, n: Name)
    requires e.If?
    ensures var t := Emit(c, e.test, locals, n + 1);
            var a := Emit(c, e.thn, locals, t.next);
            var b := Emit(c, e.els, locals, a.next);
            var r := Emit(c, e, locals, n);
            && Declares(r.code) == {n} + Declares(t.code) + Declares(a.code) + Declares(b.code)
            && Total(r) == {n} + Total(t) + Total(a) + Total(b)
  {
    hide ExprType;
    var t := Emit(c, e.test, locals, n + 1);
    var a := Emit(c, e.thn, locals, t.next);
    var b := Emit(c, e.els, locals, a.next);
    var thn, els := Seq(a.code, Assign(n, a.value)), Seq(b.code, Assign(n, b.value));
    SeqSets(a.code, Assign(n, a.value));
    SeqSets(b.code, Assign(n, b.value));
    SeqSets(t.code, If2(t.value, thn, els));
    SeqSets(Decl(n, TypeOr(ExprType(c.p, c.self, e, TypesOf(locals)))), Seq(t.code, If2(t.value, thn, els)));
  }

  lemma LetSets(c: Context, e: Expr, locals: Locals, n: Name)
    requires e.Let?
    ensures var b := EmitBindings(c, e.bindings, locals, n + 1);
            var a := Emit(c, e.body, b.locals, b.next);
            var r := Emit(c, e, locals, n);
            && Declares(r.code) == {n} + Declares(b.code) + Declares(a.code)
            && Total(r) == {n} + CodeUses(b.code) + Total(a)
  {
    hide ExprType;
    var b := EmitBindings(c, e.bindings, locals, n + 1);
    var a := Emit(c, e.body, b.locals, b.next);
    SeqSets(a.code, Assign(n, a.value));
    SeqSets(b.code, Seq(a.code, Assign(n, a.value)));
    SeqSets(Decl(n, TypeOr(ExprType(c.p, c.self, e, TypesOf(locals)))),
      Block(Seq(b.code, Seq(a.code, Assign(n, a.value)))));
  }

  /** The range tests of a loop use all its variables. */
  function Tested(guarded: bool, names: seq<Name>): set<Name> { if guarded then set m | m in names else {} }

  lemma {:induction false} GuardSets(names: seq<Name>)
    ensures Declares(Int32Guards(names)) == {} && CodeUses(Int32Guards(names)) == set m | m in names
  {
    if names != [] {
      GuardSets(names[1..]);
      TestUses(names[0], -2147483647);
      TestUses(names[0], 2147483647);
      var low := GBinary(Less, GVar(names[0]), GInt(-2147483647));
      var high := GBinary(Greater, GVar(names[0]), GInt(2147483647));
      assert CodeUses(ReturnFail) == {} && Declares(ReturnFail) == {} && Uses(GOr(low, high)) == {names[0]};
      assert CodeUses(If1(GOr(low, high), ReturnFail)) == {names[0]} && Declares(If1(GOr(low, high), ReturnFail)) == {};
      assert names == [names[0]] + names[1..];
    }
  }

  lemma TestUses(n: Name, k: I.int64)
    ensures Uses(GBinary(Less, GVar(n), GInt(k))) == {n} && Uses(GBinary(Greater, GVar(n), GInt(k))) == {n}
  {
    assert Uses(GVar(n)) == {n} && Uses(GInt(k)) == {};
  }

  lemma LoopSets(c: Context, e: Expr, locals: Locals, n: Name)
    requires e.Loop?
    ensures var b := EmitBindings(c, e.bindings, locals, n + 2);
            var a := EmitTail(c, e.body, b.locals, b.names, n, n + 1, b.next);
            var r := Emit(c, e, locals, n);
            && Declares(r.code) == {n} + Declares(b.code) + Declares(a.code)
            && Total(r) == {n} + CodeUses(b.code) + (CodeUses(a.code) + Tested(e.guarded, b.names))
  {
    hide Int32Guards, EmitTail, EmitBindings;
    var b := EmitBindings(c, e.bindings, locals, n + 2);
    var a := EmitTail(c, e.body, b.locals, b.names, n, n + 1, b.next);
    var guards := if e.guarded then Int32Guards(b.names) else Skip;
    GuardSets(b.names);
    SeqSets(guards, a.code);
    SeqSets(b.code, For(n + 1, Seq(guards, a.code)));
    SeqSets(Decl(n, IntT), Block(Seq(b.code, For(n + 1, Seq(guards, a.code)))));
  }

  lemma CalleeGuardSets(c: Context, f: FnId)
    ensures CodeUses(CalleeGuard(c, f)) == {} && Declares(CalleeGuard(c, f)) == {}
  {
    assert Uses(GStale(f)) == {} && CodeUses(ReturnFail) == {} && Declares(ReturnFail) == {};
  }

  lemma OkTestSets(ok: Name)
    ensures CodeUses(If1(GNot(GVar(ok)), ReturnFail)) == {ok} && Declares(If1(GNot(GVar(ok)), ReturnFail)) == {}
  {
    assert Uses(GVar(ok)) == {ok} && Uses(GNot(GVar(ok))) == {ok} && CodeUses(ReturnFail) == {};
  }

  lemma CallSets(c: Context, e: Expr, locals: Locals, n: Name)
    requires e.Call?
    ensures var a := EmitArgs(c, e.args, locals, n);
            var r := Emit(c, e, locals, n);
            && Declares(r.code) == Declares(a.code) + {a.next, a.next + 1}
            && Total(r) == CodeUses(a.code) + AllUses(a.values) + {HelperName(c, e.f), a.next, a.next + 1}
  {
    var a := EmitArgs(c, e.args, locals, n);
    var call := CallHelper(a.next, a.next + 1, HelperName(c, e.f), a.values);
    var test := If1(GNot(GVar(a.next + 1)), ReturnFail);
    var guard := CalleeGuard(c, e.f);
    CalleeGuardSets(c, e.f);
    OkTestSets(a.next + 1);
    SeqSets(call, test);
    SeqSets(guard, Seq(call, test));
    SeqSets(a.code, Seq(guard, Seq(call, test)));
  }

  lemma ArgSets(c: Context, es: Exprs, locals: Locals, n: Name)
    requires es.Exprs?
    ensures var a := Emit(c, es.head, locals, n);
            var b := EmitArgs(c, es.tail, locals, a.next);
            var r := EmitArgs(c, es, locals, n);
            && r.code == Seq(a.code, b.code)
            && CodeUses(r.code) + AllUses(r.values) == Total(a) + (CodeUses(b.code) + AllUses(b.values))
  {
    var a := Emit(c, es.head, locals, n);
    var b := EmitArgs(c, es.tail, locals, a.next);
    assert ([a.value] + b.values)[1..] == b.values;
    SeqSets(a.code, b.code);
  }

  lemma SkipSets()
    ensures Declares(Skip) == {} && CodeUses(Skip) == {}
  {}

  lemma DefineSets(a: Emitted, rest: Stmt)
    ensures var r := Seq(Seq(a.code, Define(a.next, a.value)), rest);
            Declares(r) == Declares(a.code) + {a.next} + Declares(rest) && CodeUses(r) == Total(a) + CodeUses(rest)
  {
    SeqSets(a.code, Define(a.next, a.value));
    SeqSets(Seq(a.code, Define(a.next, a.value)), rest);
  }

  lemma {:induction false} AssignAllSets(names: seq<Name>, values: seq<Name>)
    ensures Declares(AssignAll(names, values)) == {}
    ensures |names| == |values| ==> CodeUses(AssignAll(names, values)) == set m | m in values
  {
    if names != [] && values != [] {
      AssignAllSets(names[1..], values[1..]);
      assert values == [values[0]] + values[1..];
    }
  }

  lemma LastSets(c: Context, e: Expr, locals: Locals, result: Name, lbl: Name, n: Name)
    ensures var a := Emit(c, e, locals, n);
            var r := EmitLast(c, e, locals, result, lbl, n);
            Declares(r.code) == Declares(a.code) && CodeUses(r.code) == Total(a)
  {
    var a := Emit(c, e, locals, n);
    SeqSets(Assign(result, a.value), Break(lbl));
    SeqSets(a.code, Seq(Assign(result, a.value), Break(lbl)));
  }

  lemma RecurSets(names: seq<Name>, a: EmittedNext, lbl: Name)
    requires |names| == |a.names|
    ensures var r := Seq(a.code, Seq(AssignAll(names, a.names), Continue(lbl)));
            Declares(r) == Declares(a.code) && CodeUses(r) == CodeUses(a.code) + set m | m in a.names
  {
    AssignAllSets(names, a.names);
    SeqSets(AssignAll(names, a.names), Continue(lbl));
    SeqSets(a.code, Seq(AssignAll(names, a.names), Continue(lbl)));
  }

  lemma BranchSets(t: Emitted, a: Stmt, b: Stmt)
    ensures var r := Seq(t.code, If2(t.value, a, b));
            && Declares(r) == Declares(t.code) + Declares(a) + Declares(b)
            && CodeUses(r) == Total(t) + CodeUses(a) + CodeUses(b)
  {
    SeqSets(t.code, If2(t.value, a, b));
  }

  lemma BlockSets(a: Stmt, b: Stmt)
    ensures var r := Block(Seq(a, b));
            Declares(r) == Declares(a) + Declares(b) && CodeUses(r) == CodeUses(a) + CodeUses(b)
  {
    SeqSets(a, b);
  }

  // ---- bounds ----

  /** Declarations are new names; uses are of names that exist by then. */
  ghost predicate Bounded(code: Stmt, uses: set<Name>, lo: Name, hi: Name) {
    Between(Declares(code), lo, hi) && Between(uses, 0, hi)
  }

  lemma VisibleMore(c: Context, locals: Locals, n: Name, next: Name)
    requires Visible(c, locals, n) && n <= next
    ensures Visible(c, locals, next)
  {}

  lemma VisibleBound(c: Context, locals: Locals, n: Name, s: Sym, local: TypedLocal)
    requires Visible(c, locals, n) && n <= local.name
    ensures Visible(c, locals[s := local], local.name + 1)
  {
    var more := locals[s := local];
    forall t ensures LocalName(more, t) < local.name + 1 { assert LocalName(locals, t) < n; }
  }

  lemma {:induction false} EmitBounds(c: Context, e: Expr, locals: Locals, n: Name)
    requires Visible(c, locals, n) && Formed(e)
    ensures var a := Emit(c, e, locals, n); Bounded(a.code, Total(a), n, a.next)
    decreases e, 2
  {
    hide *;
    match e
    case Let(_, _) => LetBounds(c, e, locals, n);
    case Loop(_, _, _, _) => LoopBounds(c, e, locals, n);
    case If(_, _, _) => IfBounds(c, e, locals, n);
    case Call(_, _) => CallBounds(c, e, locals, n);
    case Host1(_, _) => UnaryBounds(c, e, locals, n);
    case Host2(_, _, _) => PairBounds(c, e, locals, n);
    case CoreEquals(_, _) => PairBounds(c, e, locals, n);
    case Do(_) => DoBounds(c, e, locals, n);
    case _ => LeafBounds(c, e, locals, n);
  }

  lemma LeafBounds(c: Context, e: Expr, locals: Locals, n: Name)
    requires Visible(c, locals, n) && (e.IntLit? || e.BoolLit? || e.Local? || e.Recur?)
    ensures var a := Emit(c, e, locals, n); Bounded(a.code, Total(a), n, a.next)
  {
    if e.Local? { assert LocalName(locals, e.sym) < n; }
  }

  lemma {:induction false} DoBounds(c: Context, e: Expr, locals: Locals, n: Name)
    requires Visible(c, locals, n) && Formed(e) && e.Do?
    ensures var a := Emit(c, e, locals, n); Bounded(a.code, Total(a), n, a.next)
    decreases e, 0
  {
    hide Visible, Bounded, Total;
    EmitBounds(c, e.ret, locals, n);
  }

  lemma {:induction false} UnaryBounds(c: Context, e: Expr, locals: Locals, n: Name)
    requires Visible(c, locals, n) && Formed(e) && e.Host1?
    ensures var a := Emit(c, e, locals, n); Bounded(a.code, Total(a), n, a.next)
    decreases e, 0
  {
    hide Visible, UnaryCode;
    EmitBounds(c, e.arg, locals, n);
    UnaryUses(e.op1, Emit(c, e.arg, locals, n).value);
  }

  lemma {:induction false} PairBounds(c: Context, e: Expr, locals: Locals, n: Name)
    requires Visible(c, locals, n) && Formed(e) && (e.Host2? || e.CoreEquals?)
    ensures var a := Emit(c, e, locals, n); Bounded(a.code, Total(a), n, a.next)
    decreases e, 0
  {
    hide Visible, Emit, Total, Declares;
    var a := Emit(c, e.left, locals, n);
    EmitBounds(c, e.left, locals, n);
    VisibleMore(c, locals, n, a.next);
    EmitBounds(c, e.right, locals, a.next);
    PairSets(c, e, locals, n);
    SeqSets(a.code, Emit(c, e.right, locals, a.next).code);
  }

  lemma {:induction false} IfBounds(c: Context, e: Expr, locals: Locals, n: Name)
    requires Visible(c, locals, n) && Formed(e) && e.If?
    ensures var a := Emit(c, e, locals, n); Bounded(a.code, Total(a), n, a.next)
    decreases e, 0
  {
    hide Visible, Total, Declares;
    VisibleMore(c, locals, n, n + 1);
    EmitBounds(c, e.test, locals, n + 1);
    var t := Emit(c, e.test, locals, n + 1);
    VisibleMore(c, locals, n, t.next);
    EmitBounds(c, e.thn, locals, t.next);
    var a := Emit(c, e.thn, locals, t.next);
    VisibleMore(c, locals, n, a.next);
    EmitBounds(c, e.els, locals, a.next);
    IfSets(c, e, locals, n);
  }

  lemma {:induction false} LetBounds(c: Context, e: Expr, locals: Locals, n: Name)
    requires Visible(c, locals, n) && Formed(e) && e.Let?
    ensures var a := Emit(c, e, locals, n); Bounded(a.code, Total(a), n, a.next)
    decreases e, 0
  {
    hide Visible, Total, Declares, EmitBindings;
    VisibleMore(c, locals, n, n + 1);
    BindingBounds(c, e.bindings, locals, n + 1);
    var b := EmitBindings(c, e.bindings, locals, n + 1);
    EmitBounds(c, e.body, b.locals, b.next);
    LetSets(c, e, locals, n);
  }

  lemma {:induction false} LoopBounds(c: Context, e: Expr, locals: Locals, n: Name)
    requires Visible(c, locals, n) && Formed(e) && e.Loop?
    ensures var a := Emit(c, e, locals, n); Bounded(a.code, Total(a), n, a.next)
    decreases e, 0
  {
    hide Visible, Total, Declares, EmitBindings, EmitTail;
    VisibleMore(c, locals, n, n + 2);
    BindingBounds(c, e.bindings, locals, n + 2);
    var b := EmitBindings(c, e.bindings, locals, n + 2);
    TailBounds(c, e.body, b.locals, b.names, n, n + 1, b.next);
    LoopSets(c, e, locals, n);
  }

  lemma {:induction false} CallBounds(c: Context, e: Expr, locals: Locals, n: Name)
    requires Visible(c, locals, n) && Formed(e) && e.Call?
    ensures var a := Emit(c, e, locals, n); Bounded(a.code, Total(a), n, a.next)
    decreases e, 0
  {
    hide Total, Declares, EmitArgs;
    ArgBounds(c, e.args, locals, n);
    CallSets(c, e, locals, n);
  }

  lemma {:induction false} ArgBounds(c: Context, es: Exprs, locals: Locals, n: Name)
    requires Visible(c, locals, n) && FormedA(es)
    ensures var a := EmitArgs(c, es, locals, n); Bounded(a.code, CodeUses(a.code) + AllUses(a.values), n, a.next)
    decreases es, 0
  {
    hide Visible, Emit, Total;
    if es.Exprs? {
      EmitBounds(c, es.head, locals, n);
      var a := Emit(c, es.head, locals, n);
      VisibleMore(c, locals, n, a.next);
      ArgBounds(c, es.tail, locals, a.next);
      ArgSets(c, es, locals, n);
    }
  }

  lemma {:induction false} BindingBounds(c: Context, bs: Bindings, locals: Locals, n: Name)
    requires Visible(c, locals, n) && FormedB(bs)
    ensures var b := EmitBindings(c, bs, locals, n);
            && Bounded(b.code, CodeUses(b.code), n, b.next) && Visible(c, b.locals, b.next)
            && (forall m :: m in b.names ==> n <= m < b.next) && |b.names| == |Syms(bs)|
    decreases bs, 0
  {
    hide Visible, Emit, Total, ExprType, TypesOf, Declares, CodeUses;
    SkipSets();
    if bs.Binding? {
      EmitBounds(c, bs.init, locals, n);
      var a := Emit(c, bs.init, locals, n);
      var local := TypedLocal(a.next, TypeOr(ExprType(c.p, c.self, bs.init, TypesOf(locals))));
      VisibleBound(c, locals, n, bs.sym, local);
      BindingBounds(c, bs.rest, locals[bs.sym := local], a.next + 1);
      DefineSets(a, EmitBindings(c, bs.rest, locals[bs.sym := local], a.next + 1).code);
    }
  }

  lemma {:induction false} TailBounds(c: Context, e: Expr, locals: Locals, names: seq<Name>, result: Name, lbl: Name,
          n: Name)
    requires Visible(c, locals, n) && FormedTail(e, |names|)
    ensures var a := EmitTail(c, e, locals, names, result, lbl, n); Bounded(a.code, CodeUses(a.code), n, a.next)
    decreases e, 4
  {
    hide Visible, Emit, EmitBindings, EmitNext, AssignAll, EmitLast, Declares, CodeUses, Total;
    match e
    case Do(r) => TailBounds(c, r, locals, names, result, lbl, n);
    case Recur(_, args) =>
      NextBounds(c, args, locals, n);
      RecurSets(names, EmitNext(c, args, locals, n), lbl);
    case If(test, thn, els) =>
      EmitBounds(c, test, locals, n);
      var t := Emit(c, test, locals, n);
      VisibleMore(c, locals, n, t.next);
      TailBounds(c, thn, locals, names, result, lbl, t.next);
      var a := EmitTail(c, thn, locals, names, result, lbl, t.next);
      VisibleMore(c, locals, n, a.next);
      TailBounds(c, els, locals, names, result, lbl, a.next);
      BranchSets(t, a.code, EmitTail(c, els, locals, names, result, lbl, a.next).code);
    case Let(bs, body) =>
      BindingBounds(c, bs, locals, n);
      var b := EmitBindings(c, bs, locals, n);
      TailBounds(c, body, b.locals, names, result, lbl, b.next);
      BlockSets(b.code, EmitTail(c, body, b.locals, names, result, lbl, b.next).code);
    case _ => LastBounds(c, e, locals, result, lbl, n);
  }

  lemma {:induction false} LastBounds(c: Context, e: Expr, locals: Locals, result: Name, lbl: Name, n: Name)
    requires Visible(c, locals, n) && Formed(e)
    ensures var a := EmitLast(c, e, locals, result, lbl, n); Bounded(a.code, CodeUses(a.code), n, a.next)
    decreases e, 3
  {
    hide Visible, Emit, Total;
    EmitBounds(c, e, locals, n);
    LastSets(c, e, locals, result, lbl, n);
  }

  lemma {:induction false} NextBounds(c: Context, es: Exprs, locals: Locals, n: Name)
    requires Visible(c, locals, n) && FormedA(es)
    ensures var a := EmitNext(c, es, locals, n);
            && Bounded(a.code, CodeUses(a.code), n, a.next) && |a.names| == Count(es)
            && (forall m :: m in a.names ==> n <= m < a.next)
    decreases es, 0
  {
    hide Visible, Emit, Total;
    if es.Exprs? {
      EmitBounds(c, es.head, locals, n);
      var a := Emit(c, es.head, locals, n);
      VisibleMore(c, locals, n, a.next + 1);
      NextBounds(c, es.tail, locals, a.next + 1);
      DefineSets(a, EmitNext(c, es.tail, locals, a.next + 1).code);
    }
  }
}
