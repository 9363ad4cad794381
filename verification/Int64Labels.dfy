/** Labels and names in emitted code: every label is jumped to, and no name is declared in two places. */
module Int64Labels {
  import opened Int64Source
  import opened GoCode
  import opened Int64Emitter
  import opened GoRules
  import opened Int64Usage

  /** Every label is jumped to, and no name is declared in two places. */
  ghost predicate Tidy(s: Stmt) { Labels(s) <= Jumps(s) && DeclaredOnce(s) }

  lemma SeqTidy(a: Stmt, b: Stmt)
    requires Tidy(a) && Tidy(b) && Declares(a) !! Declares(b)
    ensures Tidy(Seq(a, b))
  {}

  lemma AtomTidy(s: Stmt)
    requires s.Skip? || s.Decl? || s.Define? || s.Assign? || s.Continue? || s.Break? || s.ReturnFail?
    ensures Tidy(s)
  {}

  lemma BlockTidy(s: Stmt)
    requires Tidy(s)
    ensures Tidy(Block(s))
  {}

  lemma BranchTidy(g: GExpr, a: Stmt, b: Stmt)
    requires Tidy(a) && Tidy(b) && Declares(a) !! Declares(b)
    ensures Tidy(If2(g, a, b))
  {}

  lemma LoopTidy(lbl: Name, body: Stmt)
    requires Tidy(body) && lbl in Jumps(body)
    ensures Tidy(For(lbl, body))
  {}

  lemma {:induction false} EmitTidy(c: Context, e: Expr, locals: Locals, n: Name)
    requires Visible(c, locals, n) && Formed(e)
    ensures Tidy(Emit(c, e, locals, n).code)
    decreases e, 2
  {
    hide *;
    match e
    case Let(_, _) => LetTidy(c, e, locals, n);
    case Loop(_, _, _, _) => LoopCodeTidy(c, e, locals, n);
    case If(_, _, _) => IfTidy(c, e, locals, n);
    case Call(_, _) => CallTidy(c, e, locals, n);
    case Host2(_, _, _) => PairTidy(c, e, locals, n);
    case CoreEquals(_, _) => PairTidy(c, e, locals, n);
    case _ => PlainTidy(c, e, locals, n);
  }

  lemma {:induction false} PlainTidy(c: Context, e: Expr, locals: Locals, n: Name)
    requires Visible(c, locals, n) && Formed(e)
    requires !e.Let? && !e.Loop? && !e.If? && !e.Call? && !e.Host2? && !e.CoreEquals?
    ensures Tidy(Emit(c, e, locals, n).code)
    decreases e, 0
  {
    hide Visible, UnaryCode, Tidy;
    AtomTidy(Skip);
    match e
    case Do(r) => EmitTidy(c, r, locals, n);
    case Host1(op, a) => EmitTidy(c, a, locals, n);
    case _ =>
  }

  /** Code after code: the second declares above everything that the first declares. */
  lemma AfterTidy(a: Stmt, b: Stmt, lo: Name, mid: Name, hi: Name)
    requires Tidy(a) && Tidy(b) && Between(Declares(a), lo, mid) && Between(Declares(b), mid, hi)
    ensures Tidy(Seq(a, b)) && (lo <= mid <= hi ==> Between(Declares(Seq(a, b)), lo, hi))
  {
    SeqTidy(a, b);
    SeqSets(a, b);
  }

  lemma {:induction false} PairTidy(c: Context, e: Expr, locals: Locals, n: Name)
    requires Visible(c, locals, n) && Formed(e) && (e.Host2? || e.CoreEquals?)
    ensures Tidy(Emit(c, e, locals, n).code)
    decreases e, 0
  {
    hide Visible, Emit, Tidy, Between;
    EmitTidy(c, e.left, locals, n);
    EmitBounds(c, e.left, locals, n);
    var a := Emit(c, e.left, locals, n);
    VisibleMore(c, locals, n, a.next);
    EmitTidy(c, e.right, locals, a.next);
    EmitBounds(c, e.right, locals, a.next);
    PairSets(c, e, locals, n);
    var b := Emit(c, e.right, locals, a.next);
    AfterTidy(a.code, b.code, n, a.next, b.next);
  }

  /** Code that ends in assigning its value declares nothing more. */
  lemma AssignTidy(a: Stmt, n: Name, g: GExpr)
    requires Tidy(a)
    ensures Tidy(Seq(a, Assign(n, g))) && Declares(Seq(a, Assign(n, g))) == Declares(a)
  {
    AtomTidy(Assign(n, g));
    SeqSets(a, Assign(n, g));
    SeqTidy(a, Assign(n, g));
  }

  /** A result variable in front of code with later names. */
  lemma DeclTidy(n: Name, s: Stmt, lo: Name, hi: Name)
    requires Tidy(s) && n < lo && Between(Declares(s), lo, hi)
    ensures forall t :: Tidy(Seq(Decl(n, t), s))
  {
    forall t ensures Tidy(Seq(Decl(n, t), s)) {
      AtomTidy(Decl(n, t));
      SeqTidy(Decl(n, t), s);
    }
  }

  lemma {:induction false} IfTidy(c: Context, e: Expr, locals: Locals, n: Name)
    requires Visible(c, locals, n) && Formed(e) && e.If?
    ensures Tidy(Emit(c, e, locals, n).code)
    decreases e, 0
  {
    hide Visible, Tidy, Total, Declares;
    VisibleMore(c, locals, n, n + 1);
    EmitTidy(c, e.test, locals, n + 1);
    EmitBounds(c, e.test, locals, n + 1);
    var t := Emit(c, e.test, locals, n + 1);
    VisibleMore(c, locals, n, t.next);
    EmitTidy(c, e.thn, locals, t.next);
    EmitBounds(c, e.thn, locals, t.next);
    var a := Emit(c, e.thn, locals, t.next);
    VisibleMore(c, locals, n, a.next);
    EmitTidy(c, e.els, locals, a.next);
    EmitBounds(c, e.els, locals, a.next);
    var b := Emit(c, e.els, locals, a.next);
    AssignTidy(a.code, n, a.value);
    AssignTidy(b.code, n, b.value);
    var thn, els := Seq(a.code, Assign(n, a.value)), Seq(b.code, Assign(n, b.value));
    BranchesTidy(t, thn, els, n + 1, t.next, a.next, b.next);
    DeclTidy(n, Seq(t.code, If2(t.value, thn, els)), n + 1, b.next);
  }

  lemma BranchesTidy(t: Emitted, a: Stmt, b: Stmt, lo: Name, first: Name, second: Name, hi: Name)
    requires lo <= first <= second <= hi && Tidy(t.code) && Tidy(a) && Tidy(b)
    requires Between(Declares(t.code), lo, first) && Between(Declares(a), first, second)
    requires Between(Declares(b), second, hi)
    ensures Tidy(Seq(t.code, If2(t.value, a, b))) && Between(Declares(Seq(t.code, If2(t.value, a, b))), lo, hi)
  {
    BranchTidy(t.value, a, b);
    BranchSets(t, a, b);
    AfterTidy(t.code, If2(t.value, a, b), lo, first, hi);
  }

  lemma {:induction false} LetTidy(c: Context, e: Expr, locals: Locals, n: Name)
    requires Visible(c, locals, n) && Formed(e) && e.Let?
    ensures Tidy(Emit(c, e, locals, n).code)
    decreases e, 0
  {
    hide Visible, Tidy, Total, Declares, EmitBindings;
    VisibleMore(c, locals, n, n + 1);
    BindingTidy(c, e.bindings, locals, n + 1);
    BindingBounds(c, e.bindings, locals, n + 1);
    var b := EmitBindings(c, e.bindings, locals, n + 1);
    EmitTidy(c, e.body, b.locals, b.next);
    EmitBounds(c, e.body, b.locals, b.next);
    var a := Emit(c, e.body, b.locals, b.next);
    AssignTidy(a.code, n, a.value);
    AfterTidy(b.code, Seq(a.code, Assign(n, a.value)), n + 1, b.next, a.next);
    BlockTidy(Seq(b.code, Seq(a.code, Assign(n, a.value))));
    BlockSets(b.code, Seq(a.code, Assign(n, a.value)));
    SeqSets(b.code, Seq(a.code, Assign(n, a.value)));
    DeclTidy(n, Block(Seq(b.code, Seq(a.code, Assign(n, a.value)))), n + 1, a.next);
  }

  lemma {:induction false} GuardsTidy(names: seq<Name>)
    ensures Tidy(Int32Guards(names)) && Labels(Int32Guards(names)) == {}
  {
    GuardSets(names);
    if names != [] {
      GuardsTidy(names[1..]);
      GuardSets(names[1..]);
      assert Tidy(ReturnFail);
    }
  }

  lemma {:induction false} LoopCodeTidy(c: Context, e: Expr, locals: Locals, n: Name)
    requires Visible(c, locals, n) && Formed(e) && e.Loop?
    ensures Tidy(Emit(c, e, locals, n).code)
    decreases e, 0
  {
    hide Visible, Tidy, Declares, EmitBindings, EmitTail, Int32Guards, Jumps;
    VisibleMore(c, locals, n, n + 2);
    BindingTidy(c, e.bindings, locals, n + 2);
    BindingBounds(c, e.bindings, locals, n + 2);
    var b := EmitBindings(c, e.bindings, locals, n + 2);
    TailTidy(c, e.body, b.locals, b.names, n, n + 1, b.next);
    TailBounds(c, e.body, b.locals, b.names, n, n + 1, b.next);
    var a := EmitTail(c, e.body, b.locals, b.names, n, n + 1, b.next);
    var guards := if e.guarded then Int32Guards(b.names) else Skip;
    RoundTidy(n + 1, guards, a.code, e.guarded, b.names);
    var round := For(n + 1, Seq(guards, a.code));
    AfterTidy(b.code, round, n + 2, b.next, a.next);
    BlockTidy(Seq(b.code, round));
    BlockSets(b.code, round);
    SeqSets(b.code, round);
    DeclTidy(n, Block(Seq(b.code, round)), n + 2, a.next);
  }

  lemma RoundTidy(lbl: Name, guards: Stmt, body: Stmt, guarded: bool, names: seq<Name>)
    requires guards == (if guarded then Int32Guards(names) else Skip) && Tidy(body) && lbl in Jumps(body)
    ensures Tidy(For(lbl, Seq(guards, body))) && Declares(For(lbl, Seq(guards, body))) == Declares(body)
  {
    GuardsTidy(names);
    GuardSets(names);
    AtomTidy(Skip);
    SeqTidy(guards, body);
    SeqSets(guards, body);
    LoopTidy(lbl, Seq(guards, body));
  }

  lemma {:induction false} CallTidy(c: Context, e: Expr, locals: Locals, n: Name)
    requires Visible(c, locals, n) && Formed(e) && e.Call?
    ensures Tidy(Emit(c, e, locals, n).code)
    decreases e, 0
  {
    hide Visible, EmitArgs;
    ArgsTidy(c, e.args, locals, n);
    ArgBounds(c, e.args, locals, n);
    var a := EmitArgs(c, e.args, locals, n);
    var call := CallHelper(a.next, a.next + 1, HelperName(c, e.f), a.values);
    var test := If1(GNot(GVar(a.next + 1)), ReturnFail);
    CalleeGuardSets(c, e.f);
    OkTestSets(a.next + 1);
    GuardTidy(c, e.f, a.next + 1);
    SeqTidy(call, test);
    SeqSets(call, test);
    SeqTidy(CalleeGuard(c, e.f), Seq(call, test));
    SeqSets(CalleeGuard(c, e.f), Seq(call, test));
    AfterTidy(a.code, Seq(CalleeGuard(c, e.f), Seq(call, test)), n, a.next, a.next + 2);
  }

  lemma GuardTidy(c: Context, f: FnId, ok: Name)
    ensures Tidy(CalleeGuard(c, f)) && Tidy(If1(GNot(GVar(ok)), ReturnFail))
  {
    assert Tidy(ReturnFail);
  }

  lemma {:induction false} ArgsTidy(c: Context, es: Exprs, locals: Locals, n: Name)
    requires Visible(c, locals, n) && FormedA(es)
    ensures Tidy(EmitArgs(c, es, locals, n).code)
    decreases es, 0
  {
    hide Visible, Emit, Tidy;
    AtomTidy(Skip);
    if es.Exprs? {
      EmitTidy(c, es.head, locals, n);
      EmitBounds(c, es.head, locals, n);
      var a := Emit(c, es.head, locals, n);
      VisibleMore(c, locals, n, a.next);
      ArgsTidy(c, es.tail, locals, a.next);
      ArgBounds(c, es.tail, locals, a.next);
      var b := EmitArgs(c, es.tail, locals, a.next);
      AfterTidy(a.code, b.code, n, a.next, b.next);
    }
  }

  lemma DefineTidy(a: Emitted, rest: Stmt, lo: Name, hi: Name)
    requires Tidy(a.code) && Tidy(rest)
    requires Between(Declares(a.code), lo, a.next) && Between(Declares(rest), a.next + 1, hi)
    ensures Tidy(Seq(Seq(a.code, Define(a.next, a.value)), rest))
  {
    AtomTidy(Define(a.next, a.value));
    SeqTidy(a.code, Define(a.next, a.value));
    SeqSets(a.code, Define(a.next, a.value));
    SeqTidy(Seq(a.code, Define(a.next, a.value)), rest);
  }

  lemma {:induction false} BindingTidy(c: Context, bs: Bindings, locals: Locals, n: Name)
    requires Visible(c, locals, n) && FormedB(bs)
    ensures Tidy(EmitBindings(c, bs, locals, n).code)
    decreases bs, 0
  {
    hide Visible, Emit, Tidy, Declares, ExprType, TypesOf;
    AtomTidy(Skip);
    if bs.Binding? {
      EmitTidy(c, bs.init, locals, n);
      EmitBounds(c, bs.init, locals, n);
      var a := Emit(c, bs.init, locals, n);
      var local := TypedLocal(a.next, TypeOr(ExprType(c.p, c.self, bs.init, TypesOf(locals))));
      VisibleBound(c, locals, n, bs.sym, local);
      BindingTidy(c, bs.rest, locals[bs.sym := local], a.next + 1);
      BindingBounds(c, bs.rest, locals[bs.sym := local], a.next + 1);
      var b := EmitBindings(c, bs.rest, locals[bs.sym := local], a.next + 1);
      DefineTidy(a, b.code, n, b.next);
    }
  }

  lemma {:induction false} NextTidy(c: Context, es: Exprs, locals: Locals, n: Name)
    requires Visible(c, locals, n) && FormedA(es)
    ensures Tidy(EmitNext(c, es, locals, n).code)
    decreases es, 0
  {
    hide Visible, Emit, Tidy, Declares;
    AtomTidy(Skip);
    if es.Exprs? {
      EmitTidy(c, es.head, locals, n);
      EmitBounds(c, es.head, locals, n);
      var a := Emit(c, es.head, locals, n);
      VisibleMore(c, locals, n, a.next + 1);
      NextTidy(c, es.tail, locals, a.next + 1);
      NextBounds(c, es.tail, locals, a.next + 1);
      var b := EmitNext(c, es.tail, locals, a.next + 1);
      DefineTidy(a, b.code, n, b.next);
    }
  }

  lemma {:induction false} AssignAllTidy(names: seq<Name>, values: seq<Name>)
    ensures Tidy(AssignAll(names, values))
  {
    AssignAllSets(names, values);
    if names != [] && values != [] {
      AssignAllTidy(names[1..], values[1..]);
      AssignAllSets(names[1..], values[1..]);
      AtomTidy(Assign(names[0], GVar(values[0])));
      SeqTidy(Assign(names[0], GVar(values[0])), AssignAll(names[1..], values[1..]));
    }
  }

  /** Code in tail position jumps to the label of its loop. */
  lemma {:induction false} TailTidy(c: Context, e: Expr, locals: Locals, names: seq<Name>, result: Name, lbl: Name,
          n: Name)
    requires Visible(c, locals, n) && FormedTail(e, |names|)
    ensures var a := EmitTail(c, e, locals, names, result, lbl, n); Tidy(a.code) && lbl in Jumps(a.code)
    decreases e, 4
  {
    hide Visible, Emit, EmitBindings, EmitNext, AssignAll, EmitLast, Tidy, Jumps, Declares;
    match e
    case Do(r) => TailTidy(c, r, locals, names, result, lbl, n);
    case Recur(_, args) =>
      NextTidy(c, args, locals, n);
      AssignAllTidy(names, EmitNext(c, args, locals, n).names);
      RecurTidy(names, EmitNext(c, args, locals, n), lbl);
    case If(test, thn, els) =>
      EmitTidy(c, test, locals, n);
      EmitBounds(c, test, locals, n);
      var t := Emit(c, test, locals, n);
      VisibleMore(c, locals, n, t.next);
      TailTidy(c, thn, locals, names, result, lbl, t.next);
      TailBounds(c, thn, locals, names, result, lbl, t.next);
      var a := EmitTail(c, thn, locals, names, result, lbl, t.next);
      VisibleMore(c, locals, n, a.next);
      TailTidy(c, els, locals, names, result, lbl, a.next);
      TailBounds(c, els, locals, names, result, lbl, a.next);
      var b := EmitTail(c, els, locals, names, result, lbl, a.next);
      BranchesTidy(t, a.code, b.code, n, t.next, a.next, b.next);
      BranchJumps(t, a.code, b.code);
    case Let(bs, body) =>
      BindingTidy(c, bs, locals, n);
      BindingBounds(c, bs, locals, n);
      var b := EmitBindings(c, bs, locals, n);
      TailTidy(c, body, b.locals, names, result, lbl, b.next);
      TailBounds(c, body, b.locals, names, result, lbl, b.next);
      var a := EmitTail(c, body, b.locals, names, result, lbl, b.next);
      AfterTidy(b.code, a.code, n, b.next, a.next);
      BlockTidy(Seq(b.code, a.code));
      BlockJumps(b.code, a.code);
    case _ => LastTidy(c, e, locals, result, lbl, n);
  }

  lemma BranchJumps(t: Emitted, a: Stmt, b: Stmt)
    ensures Jumps(a) <= Jumps(Seq(t.code, If2(t.value, a, b)))
  {
    assert Jumps(If2(t.value, a, b)) == Jumps(a) + Jumps(b);
  }

  lemma BlockJumps(a: Stmt, b: Stmt)
    ensures Jumps(b) <= Jumps(Block(Seq(a, b)))
  {
    assert Jumps(Seq(a, b)) == Jumps(a) + Jumps(b);
  }

  lemma RecurTidy(names: seq<Name>, a: EmittedNext, lbl: Name)
    requires Tidy(a.code) && Tidy(AssignAll(names, a.names))
    ensures var r := Seq(a.code, Seq(AssignAll(names, a.names), Continue(lbl))); Tidy(r) && lbl in Jumps(r)
  {
    hide AssignAll;
    AssignAllSets(names, a.names);
    AtomTidy(Continue(lbl));
    SeqTidy(AssignAll(names, a.names), Continue(lbl));
    SeqSets(AssignAll(names, a.names), Continue(lbl));
    SeqTidy(a.code, Seq(AssignAll(names, a.names), Continue(lbl)));
    assert Jumps(Seq(AssignAll(names, a.names), Continue(lbl))) == Jumps(AssignAll(names, a.names)) + {lbl};
  }

  lemma {:induction false} LastTidy(c: Context, e: Expr, locals: Locals, result: Name, lbl: Name, n: Name)
    requires Visible(c, locals, n) && Formed(e)
    ensures var a := EmitLast(c, e, locals, result, lbl, n); Tidy(a.code) && lbl in Jumps(a.code)
    decreases e, 3
  {
    hide Visible, Emit;
    EmitTidy(c, e, locals, n);
    var a := Emit(c, e, locals, n);
    var leave := Seq(Assign(result, a.value), Break(lbl));
    AtomTidy(Assign(result, a.value));
    AtomTidy(Break(lbl));
    SeqTidy(Assign(result, a.value), Break(lbl));
    SeqSets(Assign(result, a.value), Break(lbl));
    SeqTidy(a.code, leave);
    assert Jumps(leave) == {lbl};
  }
}
