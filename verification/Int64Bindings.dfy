/**
 Which variables of the emitted code are used: a temporary always, the variable of a binding exactly where
 the source mentions the binding, the variable of a callee exactly where the source calls it.
 */
module Int64Bindings {
  import opened Int64Source
  import opened GoCode
  import opened Int64Emitter
  import opened GoRules
  import opened Int64Usage

  // ---- mentions ----

  lemma StandsBound(c: Context, locals: Locals, m: Name, t: Target, s: Sym, local: TypedLocal)
    requires Stands(c, locals, m, t) && local.name != m
    ensures Stands(c, locals[s := local], m, Past(t, s))
  {
    var more := locals[s := local];
    forall u ensures LocalName(more, u) == m <==> Past(t, s) == Symbol(u) {
      assert LocalName(locals, u) == m <==> t == Symbol(u);
    }
  }

  /** Code uses the variable of a target exactly where the source mentions the target. */
  lemma {:induction false} EmitMentions(c: Context, e: Expr, locals: Locals, n: Name, m: Name, t: Target)
    requires Visible(c, locals, n) && Formed(e) && m < n && Stands(c, locals, m, t)
    ensures m in Total(Emit(c, e, locals, n)) <==> Mentions(e, t)
    decreases e, 2
  {
    hide *;
    match e
    case Let(_, _) => LetMentions(c, e, locals, n, m, t);
    case Loop(_, _, _, _) => LoopMentions(c, e, locals, n, m, t);
    case If(_, _, _) => IfMentions(c, e, locals, n, m, t);
    case Call(_, _) => CallMentions(c, e, locals, n, m, t);
    case Host1(_, _) => PlainMentions(c, e, locals, n, m, t);
    case Host2(_, _, _) => PairMentions(c, e, locals, n, m, t);
    case CoreEquals(_, _) => PairMentions(c, e, locals, n, m, t);
    case _ => PlainMentions(c, e, locals, n, m, t);
  }

  lemma {:induction false} PlainMentions(c: Context, e: Expr, locals: Locals, n: Name, m: Name, t: Target)
    requires Visible(c, locals, n) && Formed(e) && m < n && Stands(c, locals, m, t)
    requires !e.Let? && !e.Loop? && !e.If? && !e.Call? && !e.Host2? && !e.CoreEquals?
    ensures m in Total(Emit(c, e, locals, n)) <==> Mentions(e, t)
    decreases e, 0
  {
    hide Visible, UnaryCode;
    match e
    case Local(s) => assert LocalName(locals, s) == m <==> t == Symbol(s);
    case Do(r) => EmitMentions(c, r, locals, n, m, t);
    case Host1(op, a) =>
      EmitMentions(c, a, locals, n, m, t);
      UnaryUses(op, Emit(c, a, locals, n).value);
    case _ =>
  }

  lemma {:induction false} PairMentions(c: Context, e: Expr, locals: Locals, n: Name, m: Name, t: Target)
    requires Visible(c, locals, n) && Formed(e) && m < n && Stands(c, locals, m, t) && (e.Host2? || e.CoreEquals?)
    ensures m in Total(Emit(c, e, locals, n)) <==> Mentions(e, t)
    decreases e, 0
  {
    hide Visible, Stands, Emit, Total;
    var a := Emit(c, e.left, locals, n);
    EmitMentions(c, e.left, locals, n, m, t);
    VisibleMore(c, locals, n, a.next);
    EmitMentions(c, e.right, locals, a.next, m, t);
    PairSets(c, e, locals, n);
  }

  lemma {:induction false} IfMentions(c: Context, e: Expr, locals: Locals, n: Name, m: Name, t: Target)
    requires Visible(c, locals, n) && Formed(e) && m < n && Stands(c, locals, m, t) && e.If?
    ensures m in Total(Emit(c, e, locals, n)) <==> Mentions(e, t)
    decreases e, 0
  {
    hide Visible, Stands, Emit, Total;
    VisibleMore(c, locals, n, n + 1);
    EmitMentions(c, e.test, locals, n + 1, m, t);
    var q := Emit(c, e.test, locals, n + 1);
    VisibleMore(c, locals, n, q.next);
    EmitMentions(c, e.thn, locals, q.next, m, t);
    var a := Emit(c, e.thn, locals, q.next);
    VisibleMore(c, locals, n, a.next);
    EmitMentions(c, e.els, locals, a.next, m, t);
    IfSets(c, e, locals, n);
  }

  lemma {:induction false} LetMentions(c: Context, e: Expr, locals: Locals, n: Name, m: Name, t: Target)
    requires Visible(c, locals, n) && Formed(e) && m < n && Stands(c, locals, m, t) && e.Let?
    ensures m in Total(Emit(c, e, locals, n)) <==> Mentions(e, t)
    decreases e, 0
  {
    hide Visible, Stands, Emit, EmitBindings, Total;
    VisibleMore(c, locals, n, n + 1);
    BindingMentions(c, e.bindings, locals, n + 1, m, t);
    BindingBounds(c, e.bindings, locals, n + 1);
    var b := EmitBindings(c, e.bindings, locals, n + 1);
    EmitMentions(c, e.body, b.locals, b.next, m, PastAll(e.bindings, t));
    LetSets(c, e, locals, n);
  }

  lemma {:induction false} LoopMentions(c: Context, e: Expr, locals: Locals, n: Name, m: Name, t: Target)
    requires Visible(c, locals, n) && Formed(e) && m < n && Stands(c, locals, m, t) && e.Loop?
    ensures m in Total(Emit(c, e, locals, n)) <==> Mentions(e, t)
    decreases e, 0
  {
    hide Visible, Stands, Emit, EmitBindings, EmitTail, Total;
    VisibleMore(c, locals, n, n + 2);
    BindingMentions(c, e.bindings, locals, n + 2, m, t);
    BindingBounds(c, e.bindings, locals, n + 2);
    var b := EmitBindings(c, e.bindings, locals, n + 2);
    TailMentions(c, e.body, b.locals, b.names, n, n + 1, b.next, m, PastAll(e.bindings, t));
    LoopSets(c, e, locals, n);
  }

  lemma {:induction false} CallMentions(c: Context, e: Expr, locals: Locals, n: Name, m: Name, t: Target)
    requires Visible(c, locals, n) && Formed(e) && m < n && Stands(c, locals, m, t) && e.Call?
    ensures m in Total(Emit(c, e, locals, n)) <==> Mentions(e, t)
    decreases e, 0
  {
    hide Visible, Emit, EmitArgs, Total, HelperName;
    ArgMentions(c, e.args, locals, n, m, t);
    CallSets(c, e, locals, n);
    assert HelperName(c, e.f) == m <==> t == Callee(e.f);
  }

  lemma {:induction false} ArgMentions(c: Context, es: Exprs, locals: Locals, n: Name, m: Name, t: Target)
    requires Visible(c, locals, n) && FormedA(es) && m < n && Stands(c, locals, m, t)
    ensures var a := EmitArgs(c, es, locals, n); m in CodeUses(a.code) + AllUses(a.values) <==> MentionsA(es, t)
    decreases es, 0
  {
    hide Visible, Stands, Emit, Total;
    if es.Exprs? {
      EmitMentions(c, es.head, locals, n, m, t);
      var a := Emit(c, es.head, locals, n);
      VisibleMore(c, locals, n, a.next);
      ArgMentions(c, es.tail, locals, a.next, m, t);
      ArgSets(c, es, locals, n);
    }
  }

  lemma {:induction false} BindingMentions(c: Context, bs: Bindings, locals: Locals, n: Name, m: Name, t: Target)
    requires Visible(c, locals, n) && FormedB(bs) && m < n && Stands(c, locals, m, t)
    ensures var b := EmitBindings(c, bs, locals, n);
            (m in CodeUses(b.code) <==> MentionsB(bs, t)) && Stands(c, b.locals, m, PastAll(bs, t))
    decreases bs, 0
  {
    hide Visible, Stands, Emit, Total, ExprType, TypesOf;
    if bs.Binding? {
      EmitMentions(c, bs.init, locals, n, m, t);
      var a := Emit(c, bs.init, locals, n);
      var local := TypedLocal(a.next, TypeOr(ExprType(c.p, c.self, bs.init, TypesOf(locals))));
      VisibleBound(c, locals, n, bs.sym, local);
      StandsBound(c, locals, m, t, bs.sym, local);
      BindingMentions(c, bs.rest, locals[bs.sym := local], a.next + 1, m, Past(t, bs.sym));
      DefineSets(a, EmitBindings(c, bs.rest, locals[bs.sym := local], a.next + 1).code);
    }
  }

  lemma {:induction false} TailMentions(c: Context, e: Expr, locals: Locals, names: seq<Name>, result: Name, lbl: Name,
          n: Name, m: Name, t: Target)
    requires Visible(c, locals, n) && FormedTail(e, |names|) && m < n && Stands(c, locals, m, t)
    ensures m in CodeUses(EmitTail(c, e, locals, names, result, lbl, n).code) <==> Mentions(e, t)
    decreases e, 4
  {
    hide Visible, Stands, Emit, EmitBindings, EmitNext, AssignAll, EmitLast, CodeUses, Total;
    match e
    case Do(r) => TailMentions(c, r, locals, names, result, lbl, n, m, t);
    case Recur(_, args) =>
      NextMentions(c, args, locals, n, m, t);
      NextBounds(c, args, locals, n);
      RecurSets(names, EmitNext(c, args, locals, n), lbl);
    case If(test, thn, els) =>
      EmitMentions(c, test, locals, n, m, t);
      var q := Emit(c, test, locals, n);
      VisibleMore(c, locals, n, q.next);
      TailMentions(c, thn, locals, names, result, lbl, q.next, m, t);
      var a := EmitTail(c, thn, locals, names, result, lbl, q.next);
      VisibleMore(c, locals, n, a.next);
      TailMentions(c, els, locals, names, result, lbl, a.next, m, t);
      BranchSets(q, a.code, EmitTail(c, els, locals, names, result, lbl, a.next).code);
    case Let(bs, body) =>
      BindingMentions(c, bs, locals, n, m, t);
      BindingBounds(c, bs, locals, n);
      var b := EmitBindings(c, bs, locals, n);
      TailMentions(c, body, b.locals, names, result, lbl, b.next, m, PastAll(bs, t));
      BlockSets(b.code, EmitTail(c, body, b.locals, names, result, lbl, b.next).code);
    case _ =>
      EmitMentions(c, e, locals, n, m, t);
      LastSets(c, e, locals, result, lbl, n);
  }

  lemma {:induction false} NextMentions(c: Context, es: Exprs, locals: Locals, n: Name, m: Name, t: Target)
    requires Visible(c, locals, n) && FormedA(es) && m < n && Stands(c, locals, m, t)
    ensures m in CodeUses(EmitNext(c, es, locals, n).code) <==> MentionsA(es, t)
    decreases es, 0
  {
    hide Visible, Stands, Emit, Total;
    if es.Exprs? {
      EmitMentions(c, es.head, locals, n, m, t);
      var a := Emit(c, es.head, locals, n);
      VisibleMore(c, locals, n, a.next + 1);
      NextMentions(c, es.tail, locals, a.next + 1, m, t);
      DefineSets(a, EmitNext(c, es.tail, locals, a.next + 1).code);
    }
  }

  // ---- names that nothing stands for ----

  lemma {:induction false} NothingMentioned(e: Expr)
    ensures !Mentions(e, Nothing)
    decreases e, 0
  {
    match e
    case Do(r) => NothingMentioned(r);
    case Let(bs, body) => NothingMentionedB(bs); NothingMentioned(body);
    case Loop(_, _, bs, body) => NothingMentionedB(bs); NothingMentioned(body);
    case Recur(_, args) => NothingMentionedA(args);
    case If(test, thn, els) => NothingMentioned(test); NothingMentioned(thn); NothingMentioned(els);
    case Host1(_, a) => NothingMentioned(a);
    case Host2(_, l, r) => NothingMentioned(l); NothingMentioned(r);
    case CoreEquals(l, r) => NothingMentioned(l); NothingMentioned(r);
    case Call(_, args) => NothingMentionedA(args);
    case _ =>
  }

  lemma {:induction false} NothingMentionedA(es: Exprs)
    ensures !MentionsA(es, Nothing)
    decreases es, 0
  {
    if es.Exprs? { NothingMentioned(es.head); NothingMentionedA(es.tail); }
  }

  lemma {:induction false} NothingMentionedB(bs: Bindings)
    ensures !MentionsB(bs, Nothing) && PastAll(bs, Nothing) == Nothing
    decreases bs, 0
  {
    if bs.Binding? { NothingMentioned(bs.init); NothingMentionedB(bs.rest); }
  }

  /** Names that nothing stands for, such as the temporaries of code emitted before. */
  ghost predicate Hidden(c: Context, locals: Locals, names: set<Name>, n: Name) {
    forall m :: m in names ==> m < n && Stands(c, locals, m, Nothing)
  }

  lemma TemporariesHidden(c: Context, locals: Locals, names: set<Name>, lo: Name, n: Name)
    requires Visible(c, locals, lo) && Between(names, lo, n)
    ensures Hidden(c, locals, names, n)
  {
    forall m | m in names ensures m < n && Stands(c, locals, m, Nothing) {
      forall s ensures LocalName(locals, s) != m { assert LocalName(locals, s) < lo; }
      forall f ensures HelperName(c, f) != m { assert HelperName(c, f) < lo; }
    }
  }

  lemma HiddenBound(c: Context, locals: Locals, names: set<Name>, s: Sym, local: TypedLocal)
    requires Hidden(c, locals, names, local.name)
    ensures Hidden(c, locals[s := local], names, local.name + 1)
  {
    hide Stands;
    forall m | m in names ensures Stands(c, locals[s := local], m, Nothing) {
      StandsBound(c, locals, m, Nothing, s, local);
    }
  }

  lemma EmitUnseen(c: Context, e: Expr, locals: Locals, n: Name, names: set<Name>)
    requires Visible(c, locals, n) && Formed(e) && Hidden(c, locals, names, n)
    ensures names !! Total(Emit(c, e, locals, n))
  {
    hide Emit, Total, Stands, Visible;
    NothingMentioned(e);
    forall m | m in names ensures m !in Total(Emit(c, e, locals, n)) { EmitMentions(c, e, locals, n, m, Nothing); }
  }

  lemma ArgsUnseen(c: Context, es: Exprs, locals: Locals, n: Name, names: set<Name>)
    requires Visible(c, locals, n) && FormedA(es) && Hidden(c, locals, names, n)
    ensures var a := EmitArgs(c, es, locals, n); names !! (CodeUses(a.code) + AllUses(a.values))
  {
    hide EmitArgs, CodeUses, AllUses, Stands, Visible;
    NothingMentionedA(es);
    var a := EmitArgs(c, es, locals, n);
    forall m | m in names
      ensures m !in CodeUses(a.code) + AllUses(a.values)
    {
      ArgMentions(c, es, locals, n, m, Nothing);
    }
  }

  lemma NextUnseen(c: Context, es: Exprs, locals: Locals, n: Name, names: set<Name>)
    requires Visible(c, locals, n) && FormedA(es) && Hidden(c, locals, names, n)
    ensures names !! CodeUses(EmitNext(c, es, locals, n).code)
  {
    hide EmitNext, CodeUses, Stands, Visible;
    NothingMentionedA(es);
    forall m | m in names
      ensures m !in CodeUses(EmitNext(c, es, locals, n).code)
    {
      NextMentions(c, es, locals, n, m, Nothing);
    }
  }

  lemma BindingsUnseen(c: Context, bs: Bindings, locals: Locals, n: Name, names: set<Name>)
    requires Visible(c, locals, n) && FormedB(bs) && Hidden(c, locals, names, n)
    ensures var b := EmitBindings(c, bs, locals, n); names !! CodeUses(b.code) && Hidden(c, b.locals, names, b.next)
  {
    hide EmitBindings, CodeUses, Stands, Visible;
    NothingMentionedB(bs);
    var b := EmitBindings(c, bs, locals, n);
    forall m | m in names ensures m !in CodeUses(b.code) && Stands(c, b.locals, m, Nothing) {
      BindingMentions(c, bs, locals, n, m, Nothing);
    }
  }

  lemma TailUnseen(c: Context, e: Expr, locals: Locals, loopNames: seq<Name>, result: Name, lbl: Name, n: Name,
          names: set<Name>)
    requires Visible(c, locals, n) && FormedTail(e, |loopNames|) && Hidden(c, locals, names, n)
    ensures names !! CodeUses(EmitTail(c, e, locals, loopNames, result, lbl, n).code)
  {
    hide EmitTail, CodeUses, Stands, Visible;
    NothingMentioned(e);
    forall m | m in names ensures m !in CodeUses(EmitTail(c, e, locals, loopNames, result, lbl, n).code) {
      TailMentions(c, e, locals, loopNames, result, lbl, n, m, Nothing);
    }
  }

  // ---- every declaration is used ----

  lemma SplitUsed(da: set<Name>, ua: set<Name>, db: set<Name>, ub: set<Name>)
    requires da !! ub && db !! ua
    ensures da + db <= ua + ub <==> da <= ua && db <= ub
  {
    assert da + db <= ua + ub ==> da <= ua && db <= ub by {
      if da + db <= ua + ub {
        forall m | m in da ensures m in ua { assert m in da + db; }
        forall m | m in db ensures m in ub { assert m in da + db; }
      }
    }
  }

  lemma BetweenApart(d: set<Name>, u: set<Name>, lo: Name, hi: Name)
    requires Between(d, lo, hi) && Between(u, 0, lo)
    ensures d !! u
  {}

  /** Everything that the code of an expression declares is used, exactly if the source uses all its bindings. */
  lemma {:induction false} EmitUsed(c: Context, e: Expr, locals: Locals, n: Name)
    requires Visible(c, locals, n) && Formed(e)
    ensures var a := Emit(c, e, locals, n); Declares(a.code) <= Total(a) <==> AllUsed(e)
    decreases e, 2
  {
    hide *;
    match e
    case Let(_, _) => LetUsed(c, e, locals, n);
    case Loop(_, _, _, _) => LoopUsed(c, e, locals, n);
    case If(_, _, _) => IfUsed(c, e, locals, n);
    case Call(_, _) => CallUsed(c, e, locals, n);
    case Host2(_, _, _) => PairUsed(c, e, locals, n);
    case CoreEquals(_, _) => PairUsed(c, e, locals, n);
    case _ => PlainUsed(c, e, locals, n);
  }

  lemma {:induction false} PlainUsed(c: Context, e: Expr, locals: Locals, n: Name)
    requires Visible(c, locals, n) && Formed(e)
    requires !e.Let? && !e.Loop? && !e.If? && !e.Call? && !e.Host2? && !e.CoreEquals?
    ensures var a := Emit(c, e, locals, n); Declares(a.code) <= Total(a) <==> AllUsed(e)
    decreases e, 0
  {
    hide Visible, UnaryCode;
    match e
    case Do(r) => EmitUsed(c, r, locals, n);
    case Host1(op, a) =>
      EmitUsed(c, a, locals, n);
      UnaryUses(op, Emit(c, a, locals, n).value);
    case _ =>
  }

  /** Two expressions emitted one after the other do not use each other's temporaries. */
  lemma PairApart(c: Context, l: Expr, r: Expr, locals: Locals, lo: Name, n: Name)
    requires Visible(c, locals, lo) && lo <= n && Formed(l) && Formed(r)
    ensures var a := Emit(c, l, locals, n);
            var b := Emit(c, r, locals, a.next);
            Declares(a.code) !! Total(b) && Declares(b.code) !! Total(a)
  {
    hide Visible, Emit, Total, Declares, Stands;
    VisibleMore(c, locals, lo, n);
    EmitBounds(c, l, locals, n);
    var a := Emit(c, l, locals, n);
    VisibleMore(c, locals, lo, a.next);
    EmitBounds(c, r, locals, a.next);
    var b := Emit(c, r, locals, a.next);
    BetweenApart(Declares(b.code), Total(a), a.next, b.next);
    TemporariesHidden(c, locals, Declares(a.code), n, a.next);
    EmitUnseen(c, r, locals, a.next, Declares(a.code));
  }

  lemma {:induction false} PairUsed(c: Context, e: Expr, locals: Locals, n: Name)
    requires Visible(c, locals, n) && Formed(e) && (e.Host2? || e.CoreEquals?)
    ensures var a := Emit(c, e, locals, n); Declares(a.code) <= Total(a) <==> AllUsed(e)
    decreases e, 0
  {
    hide Visible, Emit, Total, Declares;
    var a := Emit(c, e.left, locals, n);
    EmitUsed(c, e.left, locals, n);
    VisibleMore(c, locals, n, a.next);
    EmitUsed(c, e.right, locals, a.next);
    var b := Emit(c, e.right, locals, a.next);
    PairSets(c, e, locals, n);
    SeqSets(a.code, b.code);
    PairApart(c, e.left, e.right, locals, n, n);
    SplitUsed(Declares(a.code), Total(a), Declares(b.code), Total(b));
  }

  /** A result variable is declared before everything and used. */
  lemma ResultUsed(n: Name, d: set<Name>, u: set<Name>, lo: Name, hi: Name)
    requires n < lo && Between(d, lo, hi)
    ensures {n} + d <= {n} + u <==> d <= u
  {
    if {n} + d <= {n} + u {
      forall m | m in d ensures m in u { assert m in {n} + d; }
    }
  }

  lemma {:induction false} IfUsed(c: Context, e: Expr, locals: Locals, n: Name)
    requires Visible(c, locals, n) && Formed(e) && e.If?
    ensures var a := Emit(c, e, locals, n); Declares(a.code) <= Total(a) <==> AllUsed(e)
    decreases e, 0
  {
    hide Visible, Emit, Total, Declares, Between;
    VisibleMore(c, locals, n, n + 1);
    EmitUsed(c, e.test, locals, n + 1);
    var t := Emit(c, e.test, locals, n + 1);
    VisibleMore(c, locals, n, t.next);
    EmitUsed(c, e.thn, locals, t.next);
    var a := Emit(c, e.thn, locals, t.next);
    VisibleMore(c, locals, n, a.next);
    EmitUsed(c, e.els, locals, a.next);
    var b := Emit(c, e.els, locals, a.next);
    IfSets(c, e, locals, n);
    IfApart(c, e, locals, n);
    var da, db, dt := Declares(a.code), Declares(b.code), Declares(t.code);
    SplitUsed(da, Total(a), db, Total(b));
    SplitUsed(dt, Total(t), da + db, Total(a) + Total(b));
    ResultUsed(n, dt + (da + db), Total(t) + (Total(a) + Total(b)), n + 1, b.next);
    assert {n} + dt + da + db == {n} + (dt + (da + db));
    assert {n} + Total(t) + Total(a) + Total(b) == {n} + (Total(t) + (Total(a) + Total(b)));
  }

  lemma IfApart(c: Context, e: Expr, locals: Locals, n: Name)
    requires Visible(c, locals, n) && Formed(e) && e.If?
    ensures var t := Emit(c, e.test, locals, n + 1);
            var a := Emit(c, e.thn, locals, t.next);
            var b := Emit(c, e.els, locals, a.next);
            && Declares(a.code) !! Total(b) && Declares(b.code) !! Total(a)
            && Declares(t.code) !! (Total(a) + Total(b)) && (Declares(a.code) + Declares(b.code)) !! Total(t)
            && Between(Declares(t.code) + (Declares(a.code) + Declares(b.code)), n + 1, b.next)
  {
    hide Visible, Emit, Total, Declares, Stands;
    PairApart(c, e.test, e.thn, locals, n, n + 1);
    var t := Emit(c, e.test, locals, n + 1);
    PairApart(c, e.thn, e.els, locals, n, t.next);
    var a := Emit(c, e.thn, locals, t.next);
    VisibleMore(c, locals, n, n + 1);
    EmitBounds(c, e.test, locals, n + 1);
    VisibleMore(c, locals, n, t.next);
    EmitBounds(c, e.thn, locals, t.next);
    VisibleMore(c, locals, n, a.next);
    EmitBounds(c, e.els, locals, a.next);
    var b := Emit(c, e.els, locals, a.next);
    TemporariesHidden(c, locals, Declares(t.code), n, a.next);
    EmitUnseen(c, e.els, locals, a.next, Declares(t.code));
    BetweenApart(Declares(b.code), Total(t), a.next, b.next);
  }

  lemma {:induction false} CallUsed(c: Context, e: Expr, locals: Locals, n: Name)
    requires Visible(c, locals, n) && Formed(e) && e.Call?
    ensures var a := Emit(c, e, locals, n); Declares(a.code) <= Total(a) <==> AllUsed(e)
    decreases e, 0
  {
    hide Emit, EmitArgs, Total, Declares, HelperName;
    ArgsUsed(c, e.args, locals, n);
    ArgBounds(c, e.args, locals, n);
    CallSets(c, e, locals, n);
    var a := EmitArgs(c, e.args, locals, n);
    assert HelperName(c, e.f) < n;
    SplitUsed(Declares(a.code), CodeUses(a.code) + AllUses(a.values), {a.next, a.next + 1},
      {HelperName(c, e.f), a.next, a.next + 1});
    assert CodeUses(a.code) + AllUses(a.values) + {HelperName(c, e.f), a.next, a.next + 1}
        == (CodeUses(a.code) + AllUses(a.values)) + {HelperName(c, e.f), a.next, a.next + 1};
  }

  lemma {:induction false} ArgsUsed(c: Context, es: Exprs, locals: Locals, n: Name)
    requires Visible(c, locals, n) && FormedA(es)
    ensures var a := EmitArgs(c, es, locals, n);
            Declares(a.code) <= CodeUses(a.code) + AllUses(a.values) <==> AllUsedA(es)
    decreases es, 0
  {
    hide Visible, Emit, Total, Between;
    if es.Exprs? {
      EmitUsed(c, es.head, locals, n);
      EmitBounds(c, es.head, locals, n);
      var a := Emit(c, es.head, locals, n);
      VisibleMore(c, locals, n, a.next);
      ArgsUsed(c, es.tail, locals, a.next);
      ArgBounds(c, es.tail, locals, a.next);
      ArgSets(c, es, locals, n);
      var b := EmitArgs(c, es.tail, locals, a.next);
      TemporariesHidden(c, locals, Declares(a.code), n, a.next);
      ArgsUnseen(c, es.tail, locals, a.next, Declares(a.code));
      BetweenApart(Declares(b.code), Total(a), a.next, b.next);
      SplitUsed(Declares(a.code), Total(a), Declares(b.code), CodeUses(b.code) + AllUses(b.values));
    }
  }

  /** The temporaries for the next round are all used by the assignments. */
  lemma {:induction false} NextUsed(c: Context, es: Exprs, locals: Locals, n: Name)
    requires Visible(c, locals, n) && FormedA(es)
    ensures var a := EmitNext(c, es, locals, n);
            Declares(a.code) <= CodeUses(a.code) + (set m | m in a.names) <==> AllUsedA(es)
    decreases es, 0
  {
    hide Visible, Emit, Total, Between, Declares, CodeUses;
    SkipSets();
    if es.Exprs? {
      EmitUsed(c, es.head, locals, n);
      EmitBounds(c, es.head, locals, n);
      var a := Emit(c, es.head, locals, n);
      var x := a.next;
      VisibleMore(c, locals, n, x + 1);
      NextUsed(c, es.tail, locals, x + 1);
      NextBounds(c, es.tail, locals, x + 1);
      var b := EmitNext(c, es.tail, locals, x + 1);
      DefineSets(a, b.code);
      NextApart(c, es, locals, n);
      var names := set m | m in b.names;
      assert (set m | m in [x] + b.names) == {x} + names;
      NextSplits(x, Declares(a.code), Total(a), Declares(b.code), CodeUses(b.code), names, b.next);
    }
  }

  lemma NextSplits(x: Name, da: set<Name>, ua: set<Name>, db: set<Name>, ub: set<Name>, names: set<Name>, hi: Name)
    requires da !! ({x} + (ub + names)) && ({x} + db) !! ua && Between(db, x + 1, hi)
    ensures da + {x} + db <= ua + ub + ({x} + names) <==> da <= ua && db <= ub + names
  {
    if da + {x} + db <= ua + ub + ({x} + names) {
      forall m | m in da ensures m in ua { assert m in da + {x} + db; }
      forall m | m in db ensures m in ub + names { assert m in da + {x} + db; }
    }
  }

  lemma NextApart(c: Context, es: Exprs, locals: Locals, n: Name)
    requires Visible(c, locals, n) && FormedA(es) && es.Exprs?
    ensures var a := Emit(c, es.head, locals, n);
            var b := EmitNext(c, es.tail, locals, a.next + 1);
            && Declares(a.code) !! ({a.next} + (CodeUses(b.code) + (set m | m in b.names)))
            && ({a.next} + Declares(b.code)) !! Total(a)
            && Between(Declares(b.code), a.next + 1, b.next)
  {
    hide Visible, Emit, Total, Declares, Stands;
    EmitBounds(c, es.head, locals, n);
    var a := Emit(c, es.head, locals, n);
    VisibleMore(c, locals, n, a.next + 1);
    NextBounds(c, es.tail, locals, a.next + 1);
    var b := EmitNext(c, es.tail, locals, a.next + 1);
    TemporariesHidden(c, locals, Declares(a.code), n, a.next + 1);
    NextUnseen(c, es.tail, locals, a.next + 1, Declares(a.code));
    BetweenApart({a.next} + Declares(b.code), Total(a), a.next, b.next);
  }

  // ---- bindings ----

  /** `later` is used after the binding list: a loop's range tests use its variables, the body what it mentions. */
  ghost predicate UsesLater(c: Context, b: EmittedBindings, body: Expr, guarded: bool, lo: Name, later: set<Name>) {
    forall m, t :: lo <= m < b.next && Stands(c, b.locals, m, t) ==>
      (m in later <==> (guarded && m in b.names) || Mentions(body, t))
  }

  lemma {:induction false} BindingsUsed(c: Context, bs: Bindings, body: Expr, guarded: bool, locals: Locals, n: Name,
          later: set<Name>)
    requires Visible(c, locals, n) && FormedB(bs)
    requires UsesLater(c, EmitBindings(c, bs, locals, n), body, guarded, n, later)
    ensures var b := EmitBindings(c, bs, locals, n);
            Declares(b.code) <= CodeUses(b.code) + later <==> AllUsedB(bs, body, guarded)
    decreases bs, 0
  {
    hide Visible, Emit, Total, Between, Declares, CodeUses, Stands, UsesLater, ExprType, TypesOf, Mentions, MentionsB;
    SkipSets();
    if bs.Binding? {
      EmitUsed(c, bs.init, locals, n);
      var a := Emit(c, bs.init, locals, n);
      var x := a.next;
      var local := TypedLocal(x, TypeOr(ExprType(c.p, c.self, bs.init, TypesOf(locals))));
      var more := locals[bs.sym := local];
      VisibleBound(c, locals, n, bs.sym, local);
      var b := EmitBindings(c, bs.rest, more, x + 1);
      LaterAfterFirst(c, bs, body, guarded, locals, n, later);
      BindingsUsed(c, bs.rest, body, guarded, more, x + 1, later);
      FirstApart(c, bs, body, guarded, locals, n, later);
      FirstUsed(c, bs, body, guarded, locals, n, later);
      DefineSets(a, b.code);
      var rest := CodeUses(b.code) + later;
      FirstSplits(x, Declares(a.code), Total(a), Declares(b.code), rest);
      assert Total(a) + CodeUses(b.code) + later == Total(a) + rest;
    }
  }

  lemma FirstSplits(x: Name, da: set<Name>, ua: set<Name>, db: set<Name>, ub: set<Name>)
    requires da !! ub && db !! ua && x !in ua && x !in db
    ensures da + {x} + db <= ua + ub <==> da <= ua && x in ub && db <= ub
  {
    if da + {x} + db <= ua + ub {
      forall m | m in da ensures m in ua { assert m in da + {x} + db; }
      forall m | m in db ensures m in ub { assert m in da + {x} + db; }
      assert x in da + {x} + db;
    }
  }

  lemma LaterAfterFirst(c: Context, bs: Bindings, body: Expr, guarded: bool, locals: Locals, n: Name, later: set<Name>)
    requires bs.Binding? && UsesLater(c, EmitBindings(c, bs, locals, n), body, guarded, n, later)
    ensures var a := Emit(c, bs.init, locals, n);
            var local := TypedLocal(a.next, TypeOr(ExprType(c.p, c.self, bs.init, TypesOf(locals))));
            UsesLater(c, EmitBindings(c, bs.rest, locals[bs.sym := local], a.next + 1), body, guarded, a.next + 1,
              later)
  {
    hide Stands, Mentions, Emit;
  }

  /** The initial value's temporaries are not used later, and the later ones not by the initial value. */
  lemma FirstApart(c: Context, bs: Bindings, body: Expr, guarded: bool, locals: Locals, n: Name, later: set<Name>)
    requires Visible(c, locals, n) && FormedB(bs) && bs.Binding?
    requires UsesLater(c, EmitBindings(c, bs, locals, n), body, guarded, n, later)
    ensures var a := Emit(c, bs.init, locals, n);
            var local := TypedLocal(a.next, TypeOr(ExprType(c.p, c.self, bs.init, TypesOf(locals))));
            var b := EmitBindings(c, bs.rest, locals[bs.sym := local], a.next + 1);
            && Declares(a.code) !! (CodeUses(b.code) + later)
            && Declares(b.code) !! Total(a) && a.next !in Total(a) && a.next !in Declares(b.code)
  {
    hide Visible, Emit, Total, Declares, Stands, Mentions, CodeUses, ExprType, TypesOf;
    EmitBounds(c, bs.init, locals, n);
    var a := Emit(c, bs.init, locals, n);
    var local := TypedLocal(a.next, TypeOr(ExprType(c.p, c.self, bs.init, TypesOf(locals))));
    var more := locals[bs.sym := local];
    VisibleBound(c, locals, n, bs.sym, local);
    BindingBounds(c, bs.rest, more, a.next + 1);
    var b := EmitBindings(c, bs.rest, more, a.next + 1);
    BetweenApart(Declares(b.code), Total(a), a.next + 1, b.next);
    TemporariesHidden(c, locals, Declares(a.code), n, a.next);
    HiddenBound(c, locals, Declares(a.code), bs.sym, local);
    BindingsUnseen(c, bs.rest, more, a.next + 1, Declares(a.code));
    NothingMentioned(body);
    forall m | m in Declares(a.code) ensures m !in later { assert Stands(c, b.locals, m, Nothing); }
  }

  /** The variable of the first binding is used exactly where the source uses the binding. */
  lemma FirstUsed(c: Context, bs: Bindings, body: Expr, guarded: bool, locals: Locals, n: Name, later: set<Name>)
    requires Visible(c, locals, n) && FormedB(bs) && bs.Binding?
    requires UsesLater(c, EmitBindings(c, bs, locals, n), body, guarded, n, later)
    ensures var a := Emit(c, bs.init, locals, n);
            var local := TypedLocal(a.next, TypeOr(ExprType(c.p, c.self, bs.init, TypesOf(locals))));
            var b := EmitBindings(c, bs.rest, locals[bs.sym := local], a.next + 1);
            a.next in CodeUses(b.code) + later <==> guarded || UsedLater(bs.sym, bs.rest, body)
  {
    hide Emit, Total, Declares, Mentions, MentionsB, CodeUses, ExprType, TypesOf;
    var a := Emit(c, bs.init, locals, n);
    var x := a.next;
    var local := TypedLocal(x, TypeOr(ExprType(c.p, c.self, bs.init, TypesOf(locals))));
    var more := locals[bs.sym := local];
    VisibleBound(c, locals, n, bs.sym, local);
    NewStands(c, locals, n, bs.sym, local);
    BindingMentions(c, bs.rest, more, x + 1, x, Symbol(bs.sym));
    assert x in EmitBindings(c, bs, locals, n).names;
  }

  lemma NewStands(c: Context, locals: Locals, n: Name, s: Sym, local: TypedLocal)
    requires Visible(c, locals, n) && n <= local.name
    ensures Stands(c, locals[s := local], local.name, Symbol(s))
  {
    var more := locals[s := local];
    forall u ensures LocalName(more, u) == local.name <==> Symbol(s) == Symbol(u) { assert LocalName(locals, u) < n; }
    forall f ensures HelperName(c, f) != local.name { assert HelperName(c, f) < n; }
  }

  /** A body uses what it mentions. */
  lemma BodyUsesLater(c: Context, b: EmittedBindings, body: Expr, lo: Name)
    requires Visible(c, b.locals, b.next) && Formed(body)
    ensures UsesLater(c, b, body, false, lo, Total(Emit(c, body, b.locals, b.next)))
  {
    hide Visible, Stands, Emit, Total, Mentions;
    forall m, t | lo <= m < b.next && Stands(c, b.locals, m, t)
      ensures m in Total(Emit(c, body, b.locals, b.next)) <==> Mentions(body, t)
    {
      EmitMentions(c, body, b.locals, b.next, m, t);
    }
  }

  lemma {:induction false} LetUsed(c: Context, e: Expr, locals: Locals, n: Name)
    requires Visible(c, locals, n) && Formed(e) && e.Let?
    ensures var a := Emit(c, e, locals, n); Declares(a.code) <= Total(a) <==> AllUsed(e)
    decreases e, 0
  {
    hide Visible, Emit, EmitBindings, Total, Declares, CodeUses, Between, Stands, UsesLater, Hidden;
    VisibleMore(c, locals, n, n + 1);
    BindingBounds(c, e.bindings, locals, n + 1);
    var b := EmitBindings(c, e.bindings, locals, n + 1);
    EmitUsed(c, e.body, b.locals, b.next);
    EmitBounds(c, e.body, b.locals, b.next);
    var a := Emit(c, e.body, b.locals, b.next);
    BodyUsesLater(c, b, e.body, n + 1);
    BindingsUsed(c, e.bindings, e.body, false, locals, n + 1, Total(a));
    LetSets(c, e, locals, n);
    BlockUsed(n, Declares(b.code), CodeUses(b.code), Declares(a.code), Total(a), n + 1, b.next, a.next);
  }

  /** The body's declarations are used by the body alone, the bindings' also by the body. */
  lemma BlockUsed(n: Name, db: set<Name>, ub: set<Name>, da: set<Name>, ua: set<Name>, lo: Name, mid: Name, hi: Name)
    requires n < lo <= mid && Between(db, lo, mid) && Between(ub, 0, mid) && Between(da, mid, hi)
    ensures {n} + db + da <= {n} + ub + ua <==> db <= ub + ua && da <= ua
    ensures db + da <= ub + ua <==> db <= ub + ua && da <= ua
  {
    if {n} + db + da <= {n} + ub + ua {
      forall m | m in db ensures m in ub + ua { assert m in {n} + db + da; }
      forall m | m in da ensures m in ua { assert m in {n} + db + da; }
    }
    if db + da <= ub + ua {
      forall m | m in da ensures m in ua { assert m in db + da; }
    }
  }

  lemma {:induction false} LoopUsed(c: Context, e: Expr, locals: Locals, n: Name)
    requires Visible(c, locals, n) && Formed(e) && e.Loop?
    ensures var a := Emit(c, e, locals, n); Declares(a.code) <= Total(a) <==> AllUsed(e)
    decreases e, 0
  {
    hide Visible, Emit, EmitBindings, EmitTail, Total, Declares, CodeUses, Between, Stands, UsesLater, Hidden;
    VisibleMore(c, locals, n, n + 2);
    BindingBounds(c, e.bindings, locals, n + 2);
    var b := EmitBindings(c, e.bindings, locals, n + 2);
    TailUsed(c, e.body, b.locals, b.names, n, n + 1, b.next);
    TailBounds(c, e.body, b.locals, b.names, n, n + 1, b.next);
    var a := EmitTail(c, e.body, b.locals, b.names, n, n + 1, b.next);
    var tested := Tested(e.guarded, b.names);
    LoopUsesLater(c, b, e.body, e.guarded, n, n + 1, n + 2);
    BindingsUsed(c, e.bindings, e.body, e.guarded, locals, n + 2, CodeUses(a.code) + tested);
    LoopSets(c, e, locals, n);
    BlockUsed(n, Declares(b.code), CodeUses(b.code), Declares(a.code), CodeUses(a.code) + tested, n + 2, b.next,
      a.next);
    TestsUseNothingNew(Declares(a.code), CodeUses(a.code), tested, b.next, a.next);
  }

  lemma TestsUseNothingNew(d: set<Name>, u: set<Name>, tested: set<Name>, mid: Name, hi: Name)
    requires Between(d, mid, hi) && Between(tested, 0, mid)
    ensures d <= u + tested <==> d <= u
  {}

  lemma LoopUsesLater(c: Context, b: EmittedBindings, body: Expr, guarded: bool, result: Name, lbl: Name, lo: Name)
    requires Visible(c, b.locals, b.next) && FormedTail(body, |b.names|) && forall m :: m in b.names ==> m < b.next
    ensures var a := EmitTail(c, body, b.locals, b.names, result, lbl, b.next);
            UsesLater(c, b, body, guarded, lo, CodeUses(a.code) + Tested(guarded, b.names))
    ensures Between(Tested(guarded, b.names), 0, b.next)
  {
    hide Visible, Stands, EmitTail, CodeUses, Mentions;
    var a := EmitTail(c, body, b.locals, b.names, result, lbl, b.next);
    forall m, t | lo <= m < b.next && Stands(c, b.locals, m, t)
      ensures m in CodeUses(a.code) + Tested(guarded, b.names) <==> (guarded && m in b.names) || Mentions(body, t)
    {
      TailMentions(c, body, b.locals, b.names, result, lbl, b.next, m, t);
    }
  }

  lemma {:induction false} TailUsed(c: Context, e: Expr, locals: Locals, names: seq<Name>, result: Name, lbl: Name,
          n: Name)
    requires Visible(c, locals, n) && FormedTail(e, |names|)
    ensures var a := EmitTail(c, e, locals, names, result, lbl, n); Declares(a.code) <= CodeUses(a.code) <==> AllUsed(e)
    decreases e, 5
  {
    hide Visible, Emit, EmitBindings, EmitNext, AssignAll, EmitLast, CodeUses, Declares, Total, Between, Stands;
    match e
    case Do(r) => TailUsed(c, r, locals, names, result, lbl, n);
    case Recur(_, args) =>
      NextUsed(c, args, locals, n);
      NextBounds(c, args, locals, n);
      RecurSets(names, EmitNext(c, args, locals, n), lbl);
    case If(_, _, _) => IfTailUsed(c, e, locals, names, result, lbl, n);
    case Let(_, _) => LetTailUsed(c, e, locals, names, result, lbl, n);
    case _ =>
      EmitUsed(c, e, locals, n);
      LastSets(c, e, locals, result, lbl, n);
  }

  lemma {:induction false} LetTailUsed(c: Context, e: Expr, locals: Locals, names: seq<Name>, result: Name, lbl: Name,
          n: Name)
    requires Visible(c, locals, n) && FormedTail(e, |names|) && e.Let?
    ensures var a := EmitTail(c, e, locals, names, result, lbl, n); Declares(a.code) <= CodeUses(a.code) <==> AllUsed(e)
    decreases e, 4
  {
    hide Visible, EmitBindings, CodeUses, Declares, Between, Stands, UsesLater;
    BindingBounds(c, e.bindings, locals, n);
    var b := EmitBindings(c, e.bindings, locals, n);
    TailUsed(c, e.body, b.locals, names, result, lbl, b.next);
    TailBounds(c, e.body, b.locals, names, result, lbl, b.next);
    var a := EmitTail(c, e.body, b.locals, names, result, lbl, b.next);
    TailUsesLater(c, b, e.body, names, result, lbl, n);
    BindingsUsed(c, e.bindings, e.body, false, locals, n, CodeUses(a.code));
    BlockSets(b.code, a.code);
    VisiblePositive(c, locals, n);
    BlockUsed(0, Declares(b.code), CodeUses(b.code), Declares(a.code), CodeUses(a.code), n, b.next, a.next);
  }

  lemma VisiblePositive(c: Context, locals: Locals, n: Name)
    requires Visible(c, locals, n)
    ensures 0 < n
  {}

  lemma TailUsesLater(c: Context, b: EmittedBindings, body: Expr, names: seq<Name>, result: Name, lbl: Name, lo: Name)
    requires Visible(c, b.locals, b.next) && FormedTail(body, |names|)
    ensures UsesLater(c, b, body, false, lo, CodeUses(EmitTail(c, body, b.locals, names, result, lbl, b.next).code))
  {
    hide Visible, Stands, EmitTail, CodeUses, Mentions;
    forall m, t | lo <= m < b.next && Stands(c, b.locals, m, t)
      ensures m in CodeUses(EmitTail(c, body, b.locals, names, result, lbl, b.next).code) <==> Mentions(body, t)
    {
      TailMentions(c, body, b.locals, names, result, lbl, b.next, m, t);
    }
  }

  lemma {:induction false} IfTailUsed(c: Context, e: Expr, locals: Locals, names: seq<Name>, result: Name, lbl: Name,
          n: Name)
    requires Visible(c, locals, n) && FormedTail(e, |names|) && e.If?
    ensures var a := EmitTail(c, e, locals, names, result, lbl, n); Declares(a.code) <= CodeUses(a.code) <==> AllUsed(e)
    decreases e, 4
  {
    hide Visible, Emit, CodeUses, Declares, Total, Between, Stands;
    EmitUsed(c, e.test, locals, n);
    var t := Emit(c, e.test, locals, n);
    VisibleMore(c, locals, n, t.next);
    TailUsed(c, e.thn, locals, names, result, lbl, t.next);
    var a := EmitTail(c, e.thn, locals, names, result, lbl, t.next);
    VisibleMore(c, locals, n, a.next);
    TailUsed(c, e.els, locals, names, result, lbl, a.next);
    var b := EmitTail(c, e.els, locals, names, result, lbl, a.next);
    BranchSets(t, a.code, b.code);
    TailsApart(c, e, locals, names, result, lbl, n);
    var da, db := Declares(a.code), Declares(b.code);
    SplitUsed(da, CodeUses(a.code), db, CodeUses(b.code));
    SplitUsed(Declares(t.code), Total(t), da + db, CodeUses(a.code) + CodeUses(b.code));
    assert Declares(t.code) + da + db == Declares(t.code) + (da + db);
    assert Total(t) + CodeUses(a.code) + CodeUses(b.code) == Total(t) + (CodeUses(a.code) + CodeUses(b.code));
  }

  lemma TailsApart(c: Context, e: Expr, locals: Locals, names: seq<Name>, result: Name, lbl: Name, n: Name)
    requires Visible(c, locals, n) && FormedTail(e, |names|) && e.If?
    ensures var t := Emit(c, e.test, locals, n);
            var a := EmitTail(c, e.thn, locals, names, result, lbl, t.next);
            var b := EmitTail(c, e.els, locals, names, result, lbl, a.next);
            && Declares(a.code) !! CodeUses(b.code) && Declares(b.code) !! CodeUses(a.code)
            && Declares(t.code) !! (CodeUses(a.code) + CodeUses(b.code))
            && (Declares(a.code) + Declares(b.code)) !! Total(t)
  {
    hide Visible, Emit, EmitTail, CodeUses, Declares, Total, Stands;
    EmitBounds(c, e.test, locals, n);
    var t := Emit(c, e.test, locals, n);
    VisibleMore(c, locals, n, t.next);
    TailBounds(c, e.thn, locals, names, result, lbl, t.next);
    var a := EmitTail(c, e.thn, locals, names, result, lbl, t.next);
    VisibleMore(c, locals, n, a.next);
    TailBounds(c, e.els, locals, names, result, lbl, a.next);
    var b := EmitTail(c, e.els, locals, names, result, lbl, a.next);
    BetweenApart(Declares(a.code) + Declares(b.code), Total(t), t.next, b.next);
    BetweenApart(Declares(b.code), CodeUses(a.code), a.next, b.next);
    TemporariesHidden(c, locals, Declares(t.code), n, t.next);
    TailUnseen(c, e.thn, locals, names, result, lbl, t.next, Declares(t.code));
    TemporariesHidden(c, locals, Declares(t.code), n, a.next);
    TailUnseen(c, e.els, locals, names, result, lbl, a.next, Declares(t.code));
    TemporariesHidden(c, locals, Declares(a.code), t.next, a.next);
    TailUnseen(c, e.els, locals, names, result, lbl, a.next, Declares(a.code));
  }
}
