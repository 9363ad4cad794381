/**
 Scopes and types of the emitted code: no variable is declared again in its scope, every variable is in scope
 and of the right type wherever it is used, and every `continue` and `break` names an enclosing loop. The
 other rules of the Go compiler are in `GoRules`.
 */
module Int64Scopes {
  import opened Objects
  import opened Int64Source
  import opened GoCode
  import opened Int64Emitter

  type Scope = map<Name, Type>

  function CheckExpr(g: GExpr, scope: Scope): Option<Type> {
    match g
    case GInt(_) => Some(IntT)
    case GBool(_) => Some(BoolT)
    case GVar(n) => if n in scope then Some(scope[n]) else None
    case GFnVar(_) => Some(FnT)
    case GStale(_) => Some(BoolT)
    case GNot(a) => if CheckExpr(a, scope) == Some(BoolT) then Some(BoolT) else None
    case GOr(a, b) => if CheckExpr(a, scope) == Some(BoolT) && CheckExpr(b, scope) == Some(BoolT)
        then Some(BoolT) else None
    case GUnary(_, a) => if CheckExpr(a, scope) == Some(IntT) then Some(IntT) else None
    case GBinary(op, a, b) =>
      if CheckExpr(a, scope) != Some(IntT) || CheckExpr(b, scope) != Some(IntT) then None
      else Some(if op.Less? || op.LessEq? || op.Greater? || op.GreaterEq? || op.Equal? then BoolT else IntT)
  }

  predicate AllInt(gs: seq<GExpr>, scope: Scope) { forall g :: g in gs ==> CheckExpr(g, scope) == Some(IntT) }

  /** The scope after a statement, or `None` if a name in it is missing, declared again or of another type. */
  function Check(s: Stmt, scope: Scope, labels: set<Name>): Option<Scope> {
    match s
    case Skip => Some(scope)
    case Seq(a, b) =>
      var next := Check(a, scope, labels);
      if next.None? then None else Check(b, next.value, labels)
    case Decl(n, t) => if n in scope then None else Some(scope[n := t])
    case Define(n, g) =>
      var t := CheckExpr(g, scope);
      if t.None? || n in scope then None else Some(scope[n := t.value])
    case Assign(n, g) => if n in scope && CheckExpr(g, scope) == Some(scope[n]) then Some(scope) else None
    case If1(c, body) => if CheckExpr(c, scope) == Some(BoolT) && Check(body, scope, labels).Some?
        then Some(scope) else None
    case If2(c, thn, els) =>
      if CheckExpr(c, scope) == Some(BoolT) && Check(thn, scope, labels).Some?
          && Check(els, scope, labels).Some? then Some(scope) else None
    case Block(body) => if Check(body, scope, labels).Some? then Some(scope) else None
    case For(l, body) => if l !in labels && Check(body, scope, labels + {l}).Some? then Some(scope) else None
    case Continue(l) => if l in labels then Some(scope) else None
    case Break(l) => if l in labels then Some(scope) else None
    case ReturnFail => Some(scope)
    case CallHelper(r, ok, h, args) =>
      if h in scope && scope[h] == FnT && AllInt(args, scope) && r !in scope && ok !in scope && r != ok
      then Some(scope[r := IntT][ok := BoolT])
      else None
  }

  /** What the Go compiler starts from: the helper's own variable and its parameters. */
  function HelperScope(h: Helper): Scope { (map p | p in h.params :: IntT)[h.name := FnT] }

  /** The whole helper passes, and its result is an int64. */
  predicate WellScoped(h: Helper) {
    var scope := Check(h.body, HelperScope(h), {});
    scope.Some? && CheckExpr(h.result, scope.value) == Some(IntT)
  }

  // ---- the invariant of the emitter ----

  predicate Has(scope: Scope, n: Name, t: Type) { n in scope && scope[n] == t }

  ghost predicate Extends(scope: Scope, next: Scope) { forall k :: k in scope ==> Has(next, k, scope[k]) }

  ghost predicate ScopeOk(c: Context, locals: Locals, scope: Scope, labels: set<Name>, n: Name) {
    && (forall k :: k in scope ==> k < n)
    && (forall l :: l in labels ==> l < n)
    && (forall s :: s in locals ==> Has(scope, locals[s].name, locals[s].typ))
    && Has(scope, c.helper, FnT)
    && c.self in c.p.fns
    && (forall f :: f in c.p.fns[c.self].callees ==> f in c.callees && Has(scope, c.callees[f], FnT))
  }

  ghost predicate Typed(c: Context, e: Expr, locals: Locals, t: Type) {
    ExprType(c.p, c.self, e, TypesOf(locals)) == Some(t)
  }

  /** The code passes, keeps the scope and stays below `next`. */
  ghost predicate Grows(r: Option<Scope>, scope: Scope, next: Name) {
    r.Some? && Extends(scope, r.value) && forall k :: k in r.value ==> k < next
  }

  ghost predicate Accepts(r: Option<Scope>, g: GExpr, t: Type, scope: Scope, next: Name) {
    Grows(r, scope, next) && CheckExpr(g, r.value) == Some(t)
  }

  ghost predicate Ok(c: Context, e: Expr, locals: Locals, scope: Scope, labels: set<Name>, n: Name, t: Type) {
    var a := Emit(c, e, locals, n);
    Accepts(Check(a.code, scope, labels), a.value, t, scope, a.next)
  }

  lemma {:induction false} Stable(g: GExpr, scope: Scope, next: Scope)
    requires Extends(scope, next) && CheckExpr(g, scope).Some?
    ensures CheckExpr(g, next) == CheckExpr(g, scope)
  {
    match g
    case GVar(n) => assert Has(next, n, scope[n]);
    case GNot(a) => Stable(a, scope, next);
    case GOr(a, b) => Stable(a, scope, next); Stable(b, scope, next);
    case GUnary(_, a) => Stable(a, scope, next);
    case GBinary(_, a, b) => Stable(a, scope, next); Stable(b, scope, next);
    case _ =>
  }

  lemma ExtendsTrans(a: Scope, b: Scope, c: Scope)
    requires Extends(a, b) && Extends(b, c)
    ensures Extends(a, c)
  {
    forall k | k in a ensures Has(c, k, a[k]) { assert Has(b, k, a[k]); }
  }

  lemma ScopeAfter(c: Context, locals: Locals, scope: Scope, labels: set<Name>, n: Name, after: Option<Scope>,
          next: Name)
    requires ScopeOk(c, locals, scope, labels, n) && Grows(after, scope, next) && n <= next
    ensures ScopeOk(c, locals, after.value, labels, next)
  {
    forall s | s in locals
      ensures Has(after.value, locals[s].name, locals[s].typ)
    {
      assert Has(scope, locals[s].name, locals[s].typ);
    }
    assert Has(after.value, c.helper, scope[c.helper]);
    forall f | f in c.p.fns[c.self].callees
      ensures f in c.callees && Has(after.value, c.callees[f], FnT)
    {
      assert Has(scope, c.callees[f], FnT);
    }
  }

  lemma AfterSeq(a: Stmt, b: Stmt, scope: Scope, labels: set<Name>)
    ensures var r := Check(a, scope, labels);
            Check(Seq(a, b), scope, labels) == if r.Some? then Check(b, r.value, labels) else None
  {}

  lemma FreshName(c: Context, locals: Locals, scope: Scope, labels: set<Name>, n: Name, t: Type, next: Name)
    requires ScopeOk(c, locals, scope, labels, n) && n < next
    ensures n !in scope && Grows(Some(scope[n := t]), scope, next) && ScopeOk(c, locals, scope[n := t], labels, next)
  {
    ScopeAfter(c, locals, scope, labels, n, Some(scope[n := t]), next);
  }

  lemma GrowsTrans(scope: Scope, mid: Option<Scope>, n: Name, after: Option<Scope>, next: Name)
    requires Grows(mid, scope, n) && Grows(after, mid.value, next)
    ensures Grows(after, scope, next)
  {
    ExtendsTrans(scope, mid.value, after.value);
  }

  // ---- expressions ----

  lemma {:induction false} CheckedExpr(c: Context, e: Expr, locals: Locals, scope: Scope, labels: set<Name>,
          n: Name, t: Type)
    requires ScopeOk(c, locals, scope, labels, n) && Typed(c, e, locals, t)
    ensures Ok(c, e, locals, scope, labels, n, t)
    decreases e, 3
  {
    hide *;
    match e
    case Do(ret) =>
      UnwrapDo(c, ret, locals, scope, labels, n, t);
      CheckedExpr(c, ret, locals, scope, labels, n, t);
    case Host1(_, _) => CheckedHost1(c, e, locals, scope, labels, n, t);
    case Host2(_, _, _) => CheckedHost2(c, e, locals, scope, labels, n, t);
    case CoreEquals(_, _) => CheckedHost2(c, e, locals, scope, labels, n, t);
    case If(_, _, _) => CheckedIf(c, e, locals, scope, labels, n, t);
    case Let(_, _) => CheckedLet(c, e, locals, scope, labels, n, t);
    case Loop(_, _, _, _) => CheckedLoop(c, e, locals, scope, labels, n, t);
    case Call(_, _) => CheckedCall(c, e, locals, scope, labels, n, t);
    case Recur(_, _) => NotTyped(c, e, locals, t);
    case _ => CheckedLeaf(c, e, locals, scope, labels, n, t);
  }

  lemma NotTyped(c: Context, e: Expr, locals: Locals, t: Type)
    ensures e.Recur? ==> !Typed(c, e, locals, t)
  {}

  lemma CheckedLeaf(c: Context, e: Expr, locals: Locals, scope: Scope, labels: set<Name>, n: Name, t: Type)
    requires ScopeOk(c, locals, scope, labels, n) && Typed(c, e, locals, t)
    requires e.IntLit? || e.BoolLit? || e.Local?
    ensures Ok(c, e, locals, scope, labels, n, t)
  {
    if e.Local? { assert Has(scope, locals[e.sym].name, locals[e.sym].typ); }
  }

  lemma UnwrapDo(c: Context, ret: Expr, locals: Locals, scope: Scope, labels: set<Name>, n: Name, t: Type)
    requires Typed(c, Do(ret), locals, t)
    ensures Typed(c, ret, locals, t)
    ensures Ok(c, Do(ret), locals, scope, labels, n, t) == Ok(c, ret, locals, scope, labels, n, t)
  {
    hide Check, Accepts;
  }

  lemma {:induction false} CheckedHost1(c: Context, e: Expr, locals: Locals, scope: Scope, labels: set<Name>,
          n: Name, t: Type)
    requires ScopeOk(c, locals, scope, labels, n) && Typed(c, e, locals, t) && e.Host1?
    ensures Ok(c, e, locals, scope, labels, n, t)
    decreases e, 2
  {
    hide Check, ScopeOk, Extends, CheckExpr, UnaryCode;
    var a := Emit(c, e.arg, locals, n);
    CheckedExpr(c, e.arg, locals, scope, labels, n, IntT);
    UnaryType(e.op1, a.value, Check(a.code, scope, labels).value);
  }

  lemma UnaryType(op: Op1, g: GExpr, scope: Scope)
    requires CheckExpr(g, scope) == Some(IntT)
    ensures CheckExpr(UnaryCode(op, g), scope) == Some(if op.IsZero? || op.IsPos? || op.IsNeg? then BoolT else IntT)
  {
    assert CheckExpr(GInt(0), scope) == CheckExpr(GInt(1), scope) == Some(IntT);
  }

  lemma BinaryType(op: Op2, g: GExpr, h: GExpr, scope: Scope)
    requires CheckExpr(g, scope) == CheckExpr(h, scope) == Some(IntT)
    ensures CheckExpr(BinaryCode(op, g, h), scope) == Some(if Numeric(op) then IntT else BoolT)
  {}

  /** Statements that follow keep the type of a pending expression. */
  lemma {:induction false} CheckedPair(c: Context, e: Expr, left: Expr, right: Expr, locals: Locals, scope: Scope,
          labels: set<Name>, n: Name)
    requires ScopeOk(c, locals, scope, labels, n) && left < e && right < e
    requires Typed(c, left, locals, IntT) && Typed(c, right, locals, IntT)
    ensures var a := Emit(c, left, locals, n);
            var b := Emit(c, right, locals, a.next);
            var r := Check(Seq(a.code, b.code), scope, labels);
            Grows(r, scope, b.next) && CheckExpr(a.value, r.value) == CheckExpr(b.value, r.value) == Some(IntT)
    decreases e, 1
  {
    hide Check, CheckExpr, ScopeOk, Emit, Typed;
    var a := Emit(c, left, locals, n);
    var b := Emit(c, right, locals, a.next);
    CheckedExpr(c, left, locals, scope, labels, n, IntT);
    var mid := Check(a.code, scope, labels);
    ScopeAfter(c, locals, scope, labels, n, mid, a.next);
    CheckedExpr(c, right, locals, mid.value, labels, a.next, IntT);
    AfterSeq(a.code, b.code, scope, labels);
    var after := Check(b.code, mid.value, labels);
    Stable(a.value, mid.value, after.value);
    GrowsTrans(scope, mid, a.next, after, b.next);
  }

  lemma {:induction false} CheckedHost2(c: Context, e: Expr, locals: Locals, scope: Scope, labels: set<Name>,
          n: Name, t: Type)
    requires ScopeOk(c, locals, scope, labels, n) && Typed(c, e, locals, t) && (e.Host2? || e.CoreEquals?)
    ensures Ok(c, e, locals, scope, labels, n, t)
    decreases e, 2
  {
    hide Check, ScopeOk, Extends, CheckExpr, BinaryCode;
    var a := Emit(c, e.left, locals, n);
    var b := Emit(c, e.right, locals, a.next);
    var op := if e.Host2? then e.op2 else Equiv;
    CheckedPair(c, e, e.left, e.right, locals, scope, labels, n);
    BinaryType(op, a.value, b.value, Check(Seq(a.code, b.code), scope, labels).value);
    EquivCode(a.value, b.value);
  }

  lemma EquivCode(g: GExpr, h: GExpr)
    ensures BinaryCode(Equiv, g, h) == GBinary(Equal, g, h)
  {}

  lemma {:induction false} CheckedIf(c: Context, e: Expr, locals: Locals, scope: Scope, labels: set<Name>, n: Name,
          t: Type)
    requires ScopeOk(c, locals, scope, labels, n) && Typed(c, e, locals, t) && e.If?
    ensures Ok(c, e, locals, scope, labels, n, t)
    decreases e, 2
  {
    hide ScopeOk, TypesOf, CheckExpr, Check, Extends;
    FreshName(c, locals, scope, labels, n, t, n + 1);
    var base := scope[n := t];
    var q := Emit(c, e.test, locals, n + 1);
    var a := Emit(c, e.thn, locals, q.next);
    var b := Emit(c, e.els, locals, a.next);
    var thn, els := Seq(a.code, Assign(n, a.value)), Seq(b.code, Assign(n, b.value));
    CheckedExpr(c, e.test, locals, base, labels, n + 1, BoolT);
    var mid := Check(q.code, base, labels);
    ScopeAfter(c, locals, base, labels, n + 1, mid, q.next);
    ScopeAfter(c, locals, base, labels, n + 1, mid, a.next);
    CheckedExpr(c, e.thn, locals, mid.value, labels, q.next, t);
    CheckedExpr(c, e.els, locals, mid.value, labels, a.next, t);
    KeepsResult(base, mid.value, n, t);
    CheckedAssign(a.code, a.value, mid.value, labels, a.next, n, t);
    CheckedAssign(b.code, b.value, mid.value, labels, b.next, n, t);
    DeclareThen(n, t, Seq(q.code, If2(q.value, thn, els)), scope, labels);
    AfterSeq(q.code, If2(q.value, thn, els), base, labels);
    IfAccepted(q.value, thn, els, mid.value, labels);
    GrowsTrans(scope, Some(base), n + 1, mid, b.next);
    KeepsVar(mid.value, n, t);
  }

  lemma KeepsVar(scope: Scope, n: Name, t: Type)
    requires Has(scope, n, t)
    ensures CheckExpr(GVar(n), scope) == Some(t)
  {}

  lemma KeepsResult(base: Scope, mid: Scope, n: Name, t: Type)
    requires Extends(base, mid) && Has(base, n, t)
    ensures Has(mid, n, t)
  {}

  lemma IfAccepted(g: GExpr, thn: Stmt, els: Stmt, scope: Scope, labels: set<Name>)
    requires CheckExpr(g, scope) == Some(BoolT) && Check(thn, scope, labels).Some? && Check(els, scope, labels).Some?
    ensures Check(If2(g, thn, els), scope, labels) == Some(scope)
  {}

  lemma CheckedAssign(code: Stmt, g: GExpr, scope: Scope, labels: set<Name>, next: Name, n: Name, t: Type)
    requires Accepts(Check(code, scope, labels), g, t, scope, next) && Has(scope, n, t)
    ensures Check(Seq(code, Assign(n, g)), scope, labels) == Check(code, scope, labels)
  {
    hide CheckExpr;
    var after := Check(code, scope, labels).value;
    assert Has(after, n, scope[n]);
    AfterSeq(code, Assign(n, g), scope, labels);
  }

  lemma DeclareThen(n: Name, t: Type, rest: Stmt, scope: Scope, labels: set<Name>)
    requires n !in scope
    ensures Check(Seq(Decl(n, t), rest), scope, labels) == Check(rest, scope[n := t], labels)
  {
    AfterSeq(Decl(n, t), rest, scope, labels);
  }

  // ---- bindings, arguments, calls ----

  ghost predicate TypedBindings(c: Context, bs: Bindings, locals: Locals, numericOnly: bool) {
    TypesAfter(c.p, c.self, bs, TypesOf(locals), numericOnly).Some?
  }

  predicate Ints(names: seq<Name>, scope: Scope) { forall n :: n in names ==> Has(scope, n, IntT) }

  ghost predicate BindingsOk(c: Context, b: EmittedBindings, r: Option<Scope>, scope: Scope, labels: set<Name>,
          lo: Name, numericOnly: bool) {
    && Grows(r, scope, b.next)
    && ScopeOk(c, b.locals, r.value, labels, b.next)
    && (numericOnly ==> Ints(b.names, r.value))
    && (forall n :: n in b.names ==> n >= lo)
  }

  lemma {:induction false} CheckedBindings(c: Context, bs: Bindings, locals: Locals, scope: Scope,
          labels: set<Name>, n: Name, numericOnly: bool)
    requires ScopeOk(c, locals, scope, labels, n) && TypedBindings(c, bs, locals, numericOnly)
    ensures var b := EmitBindings(c, bs, locals, n);
            && BindingsOk(c, b, Check(b.code, scope, labels), scope, labels, n, numericOnly)
            && |b.names| == |Syms(bs)|
            && TypesAfter(c.p, c.self, bs, TypesOf(locals), numericOnly) == Some(TypesOf(b.locals))
    decreases bs, 3
  {
    hide Emit, ExprType, ScopeOk, CheckExpr, TypesOf, Extends;
    if bs.Binding? {
      var typ := TypeOr(ExprType(c.p, c.self, bs.init, TypesOf(locals)));
      var a := Emit(c, bs.init, locals, n);
      var local := TypedLocal(a.next, typ);
      var inner := locals[bs.sym := local];
      var b := EmitBindings(c, bs.rest, inner, a.next + 1);
      CheckedExpr(c, bs.init, locals, scope, labels, n, typ);
      var mid := Check(a.code, scope, labels);
      ScopeAfter(c, locals, scope, labels, n, mid, a.next);
      BindLocal(c, locals, mid.value, labels, a.next, bs.sym, typ);
      TypesOfUpdate(locals, bs.sym, local);
      var defined := mid.value[a.next := typ];
      AfterSeq(a.code, Define(a.next, a.value), scope, labels);
      AfterSeq(Seq(a.code, Define(a.next, a.value)), b.code, scope, labels);
      CheckedBindings(c, bs.rest, inner, defined, labels, a.next + 1, numericOnly);
      GrowsTrans(scope, mid, a.next, Some(defined), a.next + 1);
      GrowsTrans(scope, Some(defined), a.next + 1, Check(b.code, defined, labels), b.next);
      ConsInts(defined, Check(b.code, defined, labels).value, a.next, b.names, numericOnly);
    } else {
      Unchanged(c, locals, scope, labels, n);
    }
  }

  lemma Unchanged(c: Context, locals: Locals, scope: Scope, labels: set<Name>, n: Name)
    requires ScopeOk(c, locals, scope, labels, n)
    ensures Grows(Some(scope), scope, n)
  {}

  lemma ConsInts(scope: Scope, after: Scope, n: Name, names: seq<Name>, ints: bool)
    requires Extends(scope, after) && n in scope && (ints ==> scope[n] == IntT && Ints(names, after))
    ensures ints ==> Ints([n] + names, after)
  {
    assert Has(after, n, scope[n]);
  }

  lemma TypesOfUpdate(locals: Locals, s: Sym, local: TypedLocal)
    ensures TypesOf(locals[s := local]) == TypesOf(locals)[s := local.typ]
  {}

  lemma BindLocal(c: Context, locals: Locals, scope: Scope, labels: set<Name>, n: Name, s: Sym, t: Type)
    requires ScopeOk(c, locals, scope, labels, n)
    ensures n !in scope && Grows(Some(scope[n := t]), scope, n + 1)
    ensures ScopeOk(c, locals[s := TypedLocal(n, t)], scope[n := t], labels, n + 1)
  {
    FreshName(c, locals, scope, labels, n, t, n + 1);
  }

  lemma {:induction false} CheckedLet(c: Context, e: Expr, locals: Locals, scope: Scope, labels: set<Name>, n: Name,
          t: Type)
    requires ScopeOk(c, locals, scope, labels, n) && Typed(c, e, locals, t) && e.Let?
    ensures Ok(c, e, locals, scope, labels, n, t)
    decreases e, 2
  {
    hide ScopeOk, TypesOf, CheckExpr, Check, Extends, EmitBindings, TypesAfter, Ints;
    FreshName(c, locals, scope, labels, n, t, n + 1);
    var base := scope[n := t];
    var b := EmitBindings(c, e.bindings, locals, n + 1);
    var a := Emit(c, e.body, b.locals, b.next);
    var last := Seq(a.code, Assign(n, a.value));
    CheckedBindings(c, e.bindings, locals, base, labels, n + 1, false);
    var mid := Check(b.code, base, labels);
    CheckedExpr(c, e.body, b.locals, mid.value, labels, b.next, t);
    KeepsResult(base, mid.value, n, t);
    CheckedAssign(a.code, a.value, mid.value, labels, a.next, n, t);
    AfterSeq(b.code, last, base, labels);
    BlockAccepted(n, t, Seq(b.code, last), scope, labels);
    FreshName(c, locals, scope, labels, n, t, a.next);
    KeepsVar(base, n, t);
  }

  lemma BlockAccepted(n: Name, t: Type, body: Stmt, scope: Scope, labels: set<Name>)
    requires n !in scope && Check(body, scope[n := t], labels).Some?
    ensures Check(Seq(Decl(n, t), Block(body)), scope, labels) == Some(scope[n := t])
  {
    DeclareThen(n, t, Block(body), scope, labels);
  }

  lemma {:induction false} CheckedArgs(c: Context, es: Exprs, locals: Locals, scope: Scope, labels: set<Name>, n: Name)
    requires ScopeOk(c, locals, scope, labels, n) && AllInts(c.p, c.self, es, TypesOf(locals))
    ensures var a := EmitArgs(c, es, locals, n);
            var r := Check(a.code, scope, labels);
            Grows(r, scope, a.next) && AllInt(a.values, r.value)
    decreases es, 3
  {
    hide Emit, ExprType, ScopeOk, CheckExpr, TypesOf, Extends;
    if es.Exprs? {
      var a := Emit(c, es.head, locals, n);
      var b := EmitArgs(c, es.tail, locals, a.next);
      CheckedExpr(c, es.head, locals, scope, labels, n, IntT);
      var mid := Check(a.code, scope, labels);
      ScopeAfter(c, locals, scope, labels, n, mid, a.next);
      CheckedArgs(c, es.tail, locals, mid.value, labels, a.next);
      AfterSeq(a.code, b.code, scope, labels);
      var after := Check(b.code, mid.value, labels);
      Stable(a.value, mid.value, after.value);
      GrowsTrans(scope, mid, a.next, after, b.next);
    } else {
      Unchanged(c, locals, scope, labels, n);
    }
  }

  lemma {:induction false} CheckedCall(c: Context, e: Expr, locals: Locals, scope: Scope, labels: set<Name>,
          n: Name, t: Type)
    requires ScopeOk(c, locals, scope, labels, n) && Typed(c, e, locals, t) && e.Call?
    ensures Ok(c, e, locals, scope, labels, n, t)
    decreases e, 2
  {
    hide ScopeOk, TypesOf, CheckExpr, Extends, EmitArgs, AllInts, AllInt, Check;
    var a := EmitArgs(c, e.args, locals, n);
    CheckedArgs(c, e.args, locals, scope, labels, n);
    var mid := Check(a.code, scope, labels);
    ScopeAfter(c, locals, scope, labels, n, mid, a.next);
    CallAccepted(c, e.f, a, locals, mid.value, labels);
    var rest := Seq(CalleeGuard(c, e.f), Seq(CallHelper(a.next, a.next + 1, HelperName(c, e.f), a.values),
                                             If1(GNot(GVar(a.next + 1)), ReturnFail)));
    AfterSeq(a.code, rest, scope, labels);
    GrowsTrans(scope, mid, a.next, Check(rest, mid.value, labels), a.next + 2);
  }

  lemma CallAccepted(c: Context, f: FnId, a: EmittedArgs, locals: Locals, scope: Scope, labels: set<Name>)
    requires ScopeOk(c, locals, scope, labels, a.next) && Callable(c.p, c.self, f) && AllInt(a.values, scope)
    ensures var r := Check(Seq(CalleeGuard(c, f), Seq(CallHelper(a.next, a.next + 1, HelperName(c, f), a.values),
                                                      If1(GNot(GVar(a.next + 1)), ReturnFail))), scope, labels);
            Grows(r, scope, a.next + 2) && CheckExpr(GVar(a.next), r.value) == Some(IntT)
  {
    hide AllInt;
    var guard, call, test := CalleeGuard(c, f), CallHelper(a.next, a.next + 1, HelperName(c, f), a.values),
        If1(GNot(GVar(a.next + 1)), ReturnFail);
    var after := scope[a.next := IntT][a.next + 1 := BoolT];
    assert Check(guard, scope, labels) == Some(scope);
    assert Check(call, scope, labels) == Some(after);
    assert CheckExpr(GVar(a.next + 1), after) == Some(BoolT);
    assert Check(test, after, labels) == Some(after);
    AfterSeq(guard, Seq(call, test), scope, labels);
    AfterSeq(call, test, scope, labels);
  }

  // ---- loops ----

  ghost predicate TypedTail(c: Context, e: Expr, locals: Locals, id: nat, arity: nat) {
    LoopTail(c.p, c.self, e, TypesOf(locals), id, arity)
  }

  ghost predicate Frame(scope: Scope, labels: set<Name>, names: seq<Name>, result: Name, lbl: Name) {
    Ints(names, scope) && Has(scope, result, IntT) && lbl in labels
  }

  lemma FrameAfter(scope: Scope, labels: set<Name>, names: seq<Name>, result: Name, lbl: Name, after: Scope)
    requires Frame(scope, labels, names, result, lbl) && Extends(scope, after)
    ensures Frame(after, labels, names, result, lbl)
  {
    assert Has(after, result, scope[result]);
    forall n | n in names ensures Has(after, n, IntT) { assert Has(scope, n, IntT); }
  }

  lemma {:induction false} CheckedTail(c: Context, e: Expr, locals: Locals, scope: Scope, labels: set<Name>,
          names: seq<Name>, result: Name, lbl: Name, id: nat, n: Name)
    requires ScopeOk(c, locals, scope, labels, n) && TypedTail(c, e, locals, id, |names|)
             && Frame(scope, labels, names, result, lbl)
    ensures Check(EmitTail(c, e, locals, names, result, lbl, n).code, scope, labels).Some?
    decreases e, 5
  {
    hide ScopeOk, TypesOf, CheckExpr, Check, Extends, Emit, EmitBindings, TypesAfter, EmitNext, AssignAll, ExprType,
        Frame, AllInts, Ints;
    match e
    case Do(ret) => CheckedTail(c, ret, locals, scope, labels, names, result, lbl, id, n);
    case Recur(_, args) => TailRecur(c, args, locals, scope, labels, names, result, lbl, n);
    case If(test, thn, els) =>
      var q := Emit(c, test, locals, n);
      var a := EmitTail(c, thn, locals, names, result, lbl, q.next);
      var b := EmitTail(c, els, locals, names, result, lbl, a.next);
      CheckedExpr(c, test, locals, scope, labels, n, BoolT);
      var mid := Check(q.code, scope, labels);
      ScopeAfter(c, locals, scope, labels, n, mid, q.next);
      ScopeAfter(c, locals, scope, labels, n, mid, a.next);
      FrameAfter(scope, labels, names, result, lbl, mid.value);
      CheckedTail(c, thn, locals, mid.value, labels, names, result, lbl, id, q.next);
      CheckedTail(c, els, locals, mid.value, labels, names, result, lbl, id, a.next);
      AfterSeq(q.code, If2(q.value, a.code, b.code), scope, labels);
      IfAccepted(q.value, a.code, b.code, mid.value, labels);
    case Let(bs, body) =>
      var b := EmitBindings(c, bs, locals, n);
      CheckedBindings(c, bs, locals, scope, labels, n, false);
      var mid := Check(b.code, scope, labels);
      var tail := EmitTail(c, body, b.locals, names, result, lbl, b.next);
      FrameAfter(scope, labels, names, result, lbl, mid.value);
      CheckedTail(c, body, b.locals, mid.value, labels, names, result, lbl, id, b.next);
      AfterSeq(b.code, tail.code, scope, labels);
      OnlyBlock(Seq(b.code, tail.code), scope, labels);
    case _ => TailLast(c, e, locals, scope, labels, names, result, lbl, n);
  }

  lemma OnlyBlock(body: Stmt, scope: Scope, labels: set<Name>)
    requires Check(body, scope, labels).Some?
    ensures Check(Block(body), scope, labels) == Some(scope)
  {}

  lemma {:induction false} TailLast(c: Context, e: Expr, locals: Locals, scope: Scope, labels: set<Name>,
          names: seq<Name>, result: Name, lbl: Name, n: Name)
    requires ScopeOk(c, locals, scope, labels, n) && Typed(c, e, locals, IntT)
             && Frame(scope, labels, names, result, lbl)
    ensures Check(EmitLast(c, e, locals, result, lbl, n).code, scope, labels).Some?
    decreases e, 4
  {
    hide ScopeOk, TypesOf, CheckExpr, Emit, ExprType;
    var a := Emit(c, e, locals, n);
    CheckedExpr(c, e, locals, scope, labels, n, IntT);
    CheckedAssign(a.code, a.value, scope, labels, a.next, result, IntT);
    AfterSeq(a.code, Seq(Assign(result, a.value), Break(lbl)), scope, labels);
    AfterSeq(a.code, Assign(result, a.value), scope, labels);
    AfterSeq(Assign(result, a.value), Break(lbl), Check(a.code, scope, labels).value, labels);
  }

  lemma {:induction false} CheckedNext(c: Context, es: Exprs, locals: Locals, scope: Scope, labels: set<Name>, n: Name)
    requires ScopeOk(c, locals, scope, labels, n) && AllInts(c.p, c.self, es, TypesOf(locals))
    ensures var b := EmitNext(c, es, locals, n);
            var r := Check(b.code, scope, labels);
            Grows(r, scope, b.next) && Ints(b.names, r.value)
    decreases es, 3
  {
    hide Emit, ExprType, ScopeOk, CheckExpr, TypesOf, Extends;
    if es.Exprs? {
      var a := Emit(c, es.head, locals, n);
      var b := EmitNext(c, es.tail, locals, a.next + 1);
      CheckedExpr(c, es.head, locals, scope, labels, n, IntT);
      var mid := Check(a.code, scope, labels);
      ScopeAfter(c, locals, scope, labels, n, mid, a.next);
      FreshName(c, locals, mid.value, labels, a.next, IntT, a.next + 1);
      var defined := mid.value[a.next := IntT];
      AfterSeq(a.code, Define(a.next, a.value), scope, labels);
      AfterSeq(Seq(a.code, Define(a.next, a.value)), b.code, scope, labels);
      CheckedNext(c, es.tail, locals, defined, labels, a.next + 1);
      GrowsTrans(scope, mid, a.next, Some(defined), a.next + 1);
      GrowsTrans(scope, Some(defined), a.next + 1, Check(b.code, defined, labels), b.next);
      ConsInts(defined, Check(b.code, defined, labels).value, a.next, b.names, true);
    } else {
      Unchanged(c, locals, scope, labels, n);
    }
  }

  lemma {:induction false} CheckedAssignAll(names: seq<Name>, values: seq<Name>, scope: Scope, labels: set<Name>)
    requires Ints(names, scope) && Ints(values, scope)
    ensures Check(AssignAll(names, values), scope, labels) == Some(scope)
  {
    if names != [] && values != [] {
      assert Has(scope, names[0], IntT) && Has(scope, values[0], IntT);
      AfterSeq(Assign(names[0], GVar(values[0])), AssignAll(names[1..], values[1..]), scope, labels);
      CheckedAssignAll(names[1..], values[1..], scope, labels);
    }
  }

  lemma {:induction false} TailRecur(c: Context, args: Exprs, locals: Locals, scope: Scope, labels: set<Name>,
          names: seq<Name>, result: Name, lbl: Name, n: Name)
    requires ScopeOk(c, locals, scope, labels, n) && AllInts(c.p, c.self, args, TypesOf(locals))
             && Frame(scope, labels, names, result, lbl)
    ensures var a := EmitNext(c, args, locals, n);
            Check(Seq(a.code, Seq(AssignAll(names, a.names), Continue(lbl))), scope, labels).Some?
    decreases args, 4
  {
    hide ScopeOk, TypesOf, CheckExpr, EmitNext, AllInts, AssignAll, Ints;
    var a := EmitNext(c, args, locals, n);
    CheckedNext(c, args, locals, scope, labels, n);
    var mid := Check(a.code, scope, labels).value;
    FrameAfter(scope, labels, names, result, lbl, mid);
    CheckedAssignAll(names, a.names, mid, labels);
    AfterSeq(a.code, Seq(AssignAll(names, a.names), Continue(lbl)), scope, labels);
    AfterSeq(AssignAll(names, a.names), Continue(lbl), mid, labels);
  }

  lemma {:induction false} CheckedGuards(names: seq<Name>, scope: Scope, labels: set<Name>)
    requires Ints(names, scope)
    ensures Check(Int32Guards(names), scope, labels) == Some(scope)
  {
    if names != [] {
      assert Has(scope, names[0], IntT);
      var low, high := GBinary(Less, GVar(names[0]), GInt(-2147483647)),
          GBinary(Greater, GVar(names[0]), GInt(2147483647));
      assert CheckExpr(GVar(names[0]), scope) == CheckExpr(GInt(-2147483647), scope)
          == CheckExpr(GInt(2147483647), scope) == Some(IntT);
      assert CheckExpr(low, scope) == CheckExpr(high, scope) == Some(BoolT);
      AfterSeq(If1(GOr(low, high), ReturnFail), Int32Guards(names[1..]), scope, labels);
      CheckedGuards(names[1..], scope, labels);
    }
  }

  lemma {:induction false} CheckedLoop(c: Context, e: Expr, locals: Locals, scope: Scope, labels: set<Name>,
          n: Name, t: Type)
    requires ScopeOk(c, locals, scope, labels, n) && Typed(c, e, locals, t) && e.Loop?
    ensures Ok(c, e, locals, scope, labels, n, t)
    decreases e, 2
  {
    hide ScopeOk, TypesOf, CheckExpr, Check, Extends, EmitBindings, EmitTail, LoopTail, TypesAfter, Int32Guards, Ints;
    FreshName(c, locals, scope, labels, n, IntT, n + 2);
    var base := scope[n := IntT];
    var b := EmitBindings(c, e.bindings, locals, n + 2);
    var tail := EmitTail(c, e.body, b.locals, b.names, n, n + 1, b.next);
    CheckedBindings(c, e.bindings, locals, base, labels, n + 2, true);
    var mid := Check(b.code, base, labels);
    var inside := labels + {n + 1};
    KeepsResult(base, mid.value, n, IntT);
    NewLabel(c, b.locals, mid.value, labels, b.next, n + 1);
    CheckedTail(c, e.body, b.locals, mid.value, inside, b.names, n, n + 1, e.id, b.next);
    CheckedGuards(b.names, mid.value, inside);
    var guards := if e.guarded then Int32Guards(b.names) else Skip;
    LoopAccepted(guards, tail.code, b.code, n + 1, base, mid.value, labels, b.names);
    LabelIsNew(c, locals, scope, labels, n);
    BlockAccepted(n, IntT, Seq(b.code, For(n + 1, Seq(guards, tail.code))), scope, labels);
    FreshName(c, locals, scope, labels, n, IntT, tail.next);
    KeepsVar(base, n, IntT);
  }

  lemma NewLabel(c: Context, locals: Locals, scope: Scope, labels: set<Name>, n: Name, l: Name)
    requires ScopeOk(c, locals, scope, labels, n) && l < n
    ensures ScopeOk(c, locals, scope, labels + {l}, n)
  {}

  lemma LabelIsNew(c: Context, locals: Locals, scope: Scope, labels: set<Name>, n: Name)
    requires ScopeOk(c, locals, scope, labels, n)
    ensures n + 1 !in labels
  {}

  lemma LoopAccepted(guards: Stmt, body: Stmt, before: Stmt, l: Name, base: Scope, mid: Scope, labels: set<Name>,
          names: seq<Name>)
    requires Check(before, base, labels) == Some(mid)
    requires guards == Skip || (guards == Int32Guards(names) && Check(guards, mid, labels + {l}) == Some(mid))
    requires Check(body, mid, labels + {l}).Some?
    ensures l !in labels ==> Check(Seq(before, For(l, Seq(guards, body))), base, labels) == Some(mid)
  {
    hide Int32Guards;
    AfterSeq(guards, body, mid, labels + {l});
    AfterSeq(before, For(l, Seq(guards, body)), base, labels);
  }

  // ---- helpers ----

  /** Every generated helper passes. */
  lemma HelperIsWellScoped(p: Program, f: FnId, n: Name)
    requires WellTyped(p) && f in p.fns
    ensures WellScoped(EmitHelper(p, f, n))
  {
    hide Emit, ExprType, Check, CheckExpr, Int32Guards, CalleeCode, CalleeNames, UsesSelf, ParamLocals, Ints, Extends;
    var fn := p.fns[f];
    var k := |fn.params|;
    var h := EmitHelper(p, f, n);
    var c := HelperContext(p, f, n);
    var locals := ParamLocals(fn.params, h.params);
    var lo := n + 1 + k + |fn.callees|;
    var a := Emit(c, fn.body, locals, lo);
    var guards := if fn.int32Params then Int32Guards(h.params) else Skip;
    var selfGuard := if UsesSelf(fn.body, f) && fn.guarded then If1(GStale(f), ReturnFail) else Skip;
    var callees := CalleeCode(fn.callees, n + 1 + k);
    var entry := HelperScope(h);
    EntryScope(h, n, k);
    ParamScope(fn.params, h.params, entry);
    CheckedGuards(h.params, entry, {});
    CheckedSelfGuard(guards, selfGuard, h.params, f, entry);
    CheckedCallees(fn.callees, n + 1 + k, entry);
    var scope := Check(callees, entry, {}).value;
    HelperScopeOk(c, locals, entry, scope, n, lo, n + 1 + k);
    CheckedExpr(c, fn.body, locals, scope, {}, lo, IntT);
    AfterSeq(guards, Seq(selfGuard, Seq(callees, a.code)), entry, {});
    AfterSeq(selfGuard, Seq(callees, a.code), entry, {});
    AfterSeq(callees, a.code, entry, {});
  }

  lemma EntryScope(h: Helper, n: Name, k: nat)
    requires h.name == n && h.params == Fresh(n + 1, k)
    ensures Has(HelperScope(h), n, FnT) && Ints(h.params, HelperScope(h))
            && (forall v :: v in HelperScope(h) ==> v < n + 1 + k)
  {}

  lemma ParamScope(params: seq<Sym>, names: seq<Name>, scope: Scope)
    requires |params| == |names| && Ints(names, scope)
    ensures var locals := ParamLocals(params, names);
            && TypesOf(locals) == ParamTypes(params)
            && forall s :: s in locals ==> Has(scope, locals[s].name, locals[s].typ)
  {
    var tls := seq(|names|, i requires 0 <= i < |names| => TypedLocal(names[i], IntT));
    forall i | 0 <= i < |tls|
      ensures Has(scope, tls[i].name, IntT) && tls[i].typ == IntT
    {}
    BindScope(map[], params, tls, scope);
  }

  lemma {:induction false} BindScope(locals: Locals, syms: seq<Sym>, tls: seq<TypedLocal>, scope: Scope)
    requires |syms| == |tls| && forall i :: 0 <= i < |tls| ==> Has(scope, tls[i].name, IntT) && tls[i].typ == IntT
    requires forall s :: s in locals ==> Has(scope, locals[s].name, IntT) && locals[s].typ == IntT
    ensures var after := Bind(locals, syms, tls);
            forall s :: (s in after <==> s in locals || s in syms)
                        && (s in after ==> after[s].typ == IntT && Has(scope, after[s].name, IntT))
    decreases |syms|
  {
    if syms != [] { BindScope(locals[syms[0] := tls[0]], syms[1..], tls[1..], scope); }
  }

  lemma CheckedSelfGuard(guards: Stmt, selfGuard: Stmt, params: seq<Name>, f: FnId, scope: Scope)
    requires Check(Int32Guards(params), scope, {}) == Some(scope)
    requires guards == Skip || guards == Int32Guards(params)
    requires selfGuard == Skip || selfGuard == If1(GStale(f), ReturnFail)
    ensures Check(guards, scope, {}) == Check(selfGuard, scope, {}) == Some(scope)
  {
    hide Int32Guards;
  }

  lemma {:induction false} CheckedCallees(callees: seq<FnId>, n: Name, scope: Scope)
    requires forall v :: v in scope ==> v < n
    ensures var r := Check(CalleeCode(callees, n), scope, {});
            && Grows(r, scope, n + |callees|)
            && forall f :: f in callees ==>
                f in CalleeNames(callees, n) && Has(r.value, CalleeNames(callees, n)[f], FnT)
    decreases |callees|
  {
    if callees != [] {
      var mid := scope[n := FnT];
      var first := Define(n, GFnVar(callees[0]));
      assert Check(first, scope, {}) == Some(mid);
      AfterSeq(first, CalleeCode(callees[1..], n + 1), scope, {});
      CheckedCallees(callees[1..], n + 1, mid);
      var after := Check(CalleeCode(callees[1..], n + 1), mid, {});
      assert Extends(scope, mid);
      ExtendsTrans(scope, mid, after.value);
      assert Has(after.value, n, mid[n]);
    }
  }

  lemma HelperScopeOk(c: Context, locals: Locals, entry: Scope, scope: Scope, n: Name, lo: Name, first: Name)
    requires c.self in c.p.fns && c.helper == n && c.callees == CalleeNames(c.p.fns[c.self].callees, first)
    requires Has(entry, n, FnT) && Extends(entry, scope) && forall k :: k in scope ==> k < lo
    requires forall s :: s in locals ==> Has(entry, locals[s].name, locals[s].typ)
    requires forall f :: f in c.p.fns[c.self].callees ==> f in c.callees && Has(scope, c.callees[f], FnT)
    ensures ScopeOk(c, locals, scope, {}, lo)
  {
    assert Has(scope, n, entry[n]);
    forall s | s in locals
      ensures Has(scope, locals[s].name, locals[s].typ)
    {
      assert Has(scope, locals[s].name, entry[locals[s].name]);
    }
  }
}
