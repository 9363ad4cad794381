/**
 What the Go compiler rejects beyond scopes and types (`pkg/runtime/codegen_int64.go`): an expression of
 constants that overflows or divides by zero, and a variable or label that is declared and never used.
 The emitter does not avoid these. Which helpers compile is `Int64Compile.HelperCompiles`.
 */
module GoRules {
  import opened Objects
  import opened Int64Source
  import opened GoCode
  import I = Int64
  import Int64Scopes

  // ---- the rules ----

  /** The value of a Go constant expression; everything that reads a variable or calls a function is not constant. */
  function Constant(g: GExpr): Option<int> {
    match g
    case GInt(i) => Some(i)
    case GUnary(Minus, a) => if Constant(a).Some? then Some(-Constant(a).value) else None
    case GBinary(op, a, b) =>
      if Constant(a).None? || Constant(b).None? then None else Fold(op, Constant(a).value, Constant(b).value)
    case _ => None
  }

  /** The operators that Go evaluates on constants, exactly; `CheckedAdd` and its like are function calls. */
  function Fold(op: GoBinary, x: int, y: int): Option<int> {
    match op
    case Plus => Some(x + y)
    case Sub => Some(x - y)
    case Times => Some(x * y)
    case Div => if y == 0 then None else Some(I.Quo(x, y))
    case Rem => if y == 0 then None else Some(x - y * I.Quo(x, y))
    case _ => None
  }

  /** No constant part overflows int64, and no division has the constant zero as its divisor. */
  predicate ConstantsOk(g: GExpr) {
    && (Constant(g).Some? ==> I.Fits(Constant(g).value))
    && match g
       case GNot(a) => ConstantsOk(a)
       case GOr(a, b) => ConstantsOk(a) && ConstantsOk(b)
       case GUnary(_, a) => ConstantsOk(a)
       case GBinary(op, a, b) =>
         ConstantsOk(a) && ConstantsOk(b) && !((op.Div? || op.Rem?) && Constant(b) == Some(0))
       case _ => true
  }

  predicate AllConstantsOk(gs: seq<GExpr>) { forall g :: g in gs ==> ConstantsOk(g) }

  predicate CodeConstantsOk(s: Stmt) {
    match s
    case Seq(a, b) => CodeConstantsOk(a) && CodeConstantsOk(b)
    case Define(_, g) => ConstantsOk(g)
    case Assign(_, g) => ConstantsOk(g)
    case If1(c, body) => ConstantsOk(c) && CodeConstantsOk(body)
    case If2(c, thn, els) => ConstantsOk(c) && CodeConstantsOk(thn) && CodeConstantsOk(els)
    case Block(body) => CodeConstantsOk(body)
    case For(_, body) => CodeConstantsOk(body)
    case CallHelper(_, _, _, args) => AllConstantsOk(args)
    case _ => true
  }

  /** The variables that an expression uses. Being assigned to is no use. */
  function Uses(g: GExpr): set<Name> {
    match g
    case GVar(n) => {n}
    case GNot(a) => Uses(a)
    case GOr(a, b) => Uses(a) + Uses(b)
    case GUnary(_, a) => Uses(a)
    case GBinary(_, a, b) => Uses(a) + Uses(b)
    case _ => {}
  }

  function AllUses(gs: seq<GExpr>): set<Name> { if gs == [] then {} else Uses(gs[0]) + AllUses(gs[1..]) }

  function CodeUses(s: Stmt): set<Name> {
    match s
    case Seq(a, b) => CodeUses(a) + CodeUses(b)
    case Define(_, g) => Uses(g)
    case Assign(_, g) => Uses(g)
    case If1(c, body) => Uses(c) + CodeUses(body)
    case If2(c, thn, els) => Uses(c) + CodeUses(thn) + CodeUses(els)
    case Block(body) => CodeUses(body)
    case For(_, body) => CodeUses(body)
    case CallHelper(_, _, h, args) => {h} + AllUses(args)
    case _ => {}
  }

  function Declares(s: Stmt): set<Name> {
    match s
    case Seq(a, b) => Declares(a) + Declares(b)
    case Decl(n, _) => {n}
    case Define(n, _) => {n}
    case If1(_, body) => Declares(body)
    case If2(_, thn, els) => Declares(thn) + Declares(els)
    case Block(body) => Declares(body)
    case For(_, body) => Declares(body)
    case CallHelper(r, ok, _, _) => {r, ok}
    case _ => {}
  }

  function Labels(s: Stmt): set<Name> {
    match s
    case Seq(a, b) => Labels(a) + Labels(b)
    case If1(_, body) => Labels(body)
    case If2(_, thn, els) => Labels(thn) + Labels(els)
    case Block(body) => Labels(body)
    case For(l, body) => {l} + Labels(body)
    case _ => {}
  }

  function Jumps(s: Stmt): set<Name> {
    match s
    case Seq(a, b) => Jumps(a) + Jumps(b)
    case If1(_, body) => Jumps(body)
    case If2(_, thn, els) => Jumps(thn) + Jumps(els)
    case Block(body) => Jumps(body)
    case For(_, body) => Jumps(body)
    case Continue(l) => {l}
    case Break(l) => {l}
    case _ => {}
  }

  /** No name is declared in two places, so that the uses of a variable can be collected over the whole helper. */
  predicate DeclaredOnce(s: Stmt) {
    match s
    case Seq(a, b) => DeclaredOnce(a) && DeclaredOnce(b) && Declares(a) !! Declares(b)
    case If1(_, body) => DeclaredOnce(body)
    case If2(_, thn, els) => DeclaredOnce(thn) && DeclaredOnce(els) && Declares(thn) !! Declares(els)
    case Block(body) => DeclaredOnce(body)
    case For(_, body) => DeclaredOnce(body)
    case CallHelper(r, ok, _, _) => r != ok
    case _ => true
  }

  /** What `go build` accepts: scopes and types, constants, and no unused variable or label. */
  predicate Compiles(h: Helper) {
    && Int64Scopes.WellScoped(h)
    && CodeConstantsOk(h.body) && ConstantsOk(h.result)
    && Declares(h.body) <= CodeUses(h.body) + Uses(h.result)
    && Labels(h.body) <= Jumps(h.body)
  }

  // ---- the condition on the source ----

  /** A value that the emitter writes as a Go constant expression. */
  function Literal(e: Expr): Option<int> {
    match e
    case IntLit(i) => Some(i)
    case Do(r) => Literal(r)
    case Host1(op, a) => if Literal(a).None? then None else Literal1(op, Literal(a).value)
    case Host2(op, l, r) =>
      if Literal(l).None? || Literal(r).None? then None else Literal2(op, Literal(l).value, Literal(r).value)
    case _ => None
  }

  function Literal1(op: Op1, x: int): Option<int> {
    match op
    case UncheckedInc => Some(x + 1)
    case UncheckedDec => Some(x - 1)
    case UncheckedNegate => Some(-x)
    case _ => None
  }

  function Literal2(op: Op2, x: int, y: int): Option<int> {
    match op
    case UncheckedAdd => Some(x + y)
    case UncheckedMinus => Some(x - y)
    case UncheckedMultiply => Some(x * y)
    case Quotient => if y == 0 then None else Some(I.Quo(x, y))
    case Remainder => if y == 0 then None else Some(x - y * I.Quo(x, y))
    case _ => None
  }

  /** No unchecked operation on literals overflows, and no divisor is literally zero. */
  predicate LiteralsOk(e: Expr)
    decreases e, 1
  {
    && (Literal(e).Some? ==> I.Fits(Literal(e).value))
    && match e
       case Do(r) => LiteralsOk(r)
       case Let(bs, body) => LiteralsOkB(bs) && LiteralsOk(body)
       case Loop(_, _, bs, body) => LiteralsOkB(bs) && LiteralsOk(body)
       case Recur(_, args) => LiteralsOkA(args)
       case If(test, thn, els) => LiteralsOk(test) && LiteralsOk(thn) && LiteralsOk(els)
       case Host1(_, a) => LiteralsOk(a)
       case Host2(op, l, r) =>
         LiteralsOk(l) && LiteralsOk(r) && !((op.Quotient? || op.Remainder?) && Literal(r) == Some(0))
       case CoreEquals(l, r) => LiteralsOk(l) && LiteralsOk(r)
       case Call(_, args) => LiteralsOkA(args)
       case _ => true
  }

  predicate LiteralsOkA(es: Exprs) { es.NoExprs? || (LiteralsOk(es.head) && LiteralsOkA(es.tail)) }

  predicate LiteralsOkB(bs: Bindings) { bs.NoBindings? || (LiteralsOk(bs.init) && LiteralsOkB(bs.rest)) }

  /** What a name may stand for. */
  datatype Target = Symbol(s: Sym) | Callee(f: FnId) | Nothing

  /** The target behind a binding of `s`. */
  function Past(t: Target, s: Sym): Target { if t == Symbol(s) then Nothing else t }

  function PastAll(bs: Bindings, t: Target): Target {
    if bs.NoBindings? then t else PastAll(bs.rest, Past(t, bs.sym))
  }

  /** Does the expression refer to the binding of a symbol outside it, or call a function? */
  predicate Mentions(e: Expr, t: Target) {
    match e
    case Local(s) => t == Symbol(s)
    case Do(r) => Mentions(r, t)
    case Let(bs, body) => MentionsB(bs, t) || Mentions(body, PastAll(bs, t))
    case Loop(_, _, bs, body) => MentionsB(bs, t) || Mentions(body, PastAll(bs, t))
    case Recur(_, args) => MentionsA(args, t)
    case If(test, thn, els) => Mentions(test, t) || Mentions(thn, t) || Mentions(els, t)
    case Host1(_, a) => Mentions(a, t)
    case Host2(_, l, r) => Mentions(l, t) || Mentions(r, t)
    case CoreEquals(l, r) => Mentions(l, t) || Mentions(r, t)
    case Call(f, args) => t == Callee(f) || MentionsA(args, t)
    case _ => false
  }

  predicate MentionsA(es: Exprs, t: Target) { es.Exprs? && (Mentions(es.head, t) || MentionsA(es.tail, t)) }

  predicate MentionsB(bs: Bindings, t: Target) {
    bs.Binding? && (Mentions(bs.init, t) || MentionsB(bs.rest, Past(t, bs.sym)))
  }

  /** Every binding is used: a loop whose variables are range tested uses them all. */
  predicate AllUsed(e: Expr) {
    match e
    case Do(r) => AllUsed(r)
    case Let(bs, body) => AllUsedB(bs, body, false) && AllUsed(body)
    case Loop(_, guarded, bs, body) => AllUsedB(bs, body, guarded) && AllUsed(body)
    case Recur(_, args) => AllUsedA(args)
    case If(test, thn, els) => AllUsed(test) && AllUsed(thn) && AllUsed(els)
    case Host1(_, a) => AllUsed(a)
    case Host2(_, l, r) => AllUsed(l) && AllUsed(r)
    case CoreEquals(l, r) => AllUsed(l) && AllUsed(r)
    case Call(_, args) => AllUsedA(args)
    case _ => true
  }

  predicate AllUsedA(es: Exprs) { es.NoExprs? || (AllUsed(es.head) && AllUsedA(es.tail)) }

  predicate AllUsedB(bs: Bindings, body: Expr, guarded: bool)
    decreases bs
  {
    bs.NoBindings?
    || (AllUsed(bs.init) && (guarded || UsedLater(bs.sym, bs.rest, body)) && AllUsedB(bs.rest, body, guarded))
  }

  predicate UsedLater(s: Sym, rest: Bindings, body: Expr) {
    MentionsB(rest, Symbol(s)) || Mentions(body, PastAll(rest, Symbol(s)))
  }

  /** The functions listed as callees are other functions, each listed once, and each is called. */
  predicate CalleesNeeded(fn: Fn, self: FnId) {
    && (forall i, j :: 0 <= i < j < |fn.callees| ==> fn.callees[i] != fn.callees[j])
    && (forall f :: f in fn.callees ==> f != self && Mentions(fn.body, Callee(f)))
  }

  predicate Compilable(fn: Fn, self: FnId) {
    LiteralsOk(fn.body) && AllUsed(fn.body) && CalleesNeeded(fn, self)
  }

  /** Where `recur` and nested `do` may stand, and with how many arguments: part of being well typed. */
  predicate Formed(e: Expr)
    decreases e, 0
  {
    match e
    case Do(r) => !r.Do? && Formed(r)
    case Let(bs, body) => FormedB(bs) && Formed(body)
    case Loop(_, _, bs, body) => FormedB(bs) && FormedTail(body, |Syms(bs)|)
    case Recur(_, _) => false
    case If(test, thn, els) => Formed(test) && Formed(thn) && Formed(els)
    case Host1(_, a) => Formed(a)
    case Host2(_, l, r) => Formed(l) && Formed(r)
    case CoreEquals(l, r) => Formed(l) && Formed(r)
    case Call(_, args) => FormedA(args)
    case _ => true
  }

  predicate FormedTail(e: Expr, arity: nat)
    decreases e, 1
  {
    match e
    case Do(r) => !r.Do? && FormedTail(r, arity)
    case Recur(_, args) => Count(args) == arity && FormedA(args)
    case If(test, thn, els) => Formed(test) && FormedTail(thn, arity) && FormedTail(els, arity)
    case Let(bs, body) => FormedB(bs) && FormedTail(body, arity)
    case _ => Formed(e)
  }

  predicate FormedA(es: Exprs) { es.NoExprs? || (Formed(es.head) && FormedA(es.tail)) }

  predicate FormedB(bs: Bindings) { bs.NoBindings? || (Formed(bs.init) && FormedB(bs.rest)) }

  lemma {:induction false} TypedIsFormed(p: Program, self: FnId, e: Expr, types: Types)
    requires ExprType(p, self, e, types).Some?
    ensures Formed(e)
    decreases e, 0
  {
    match e
    case Do(r) => TypedIsFormed(p, self, r, types);
    case Let(bs, body) =>
      TypedBindingsFormed(p, self, bs, types, false);
      TypedIsFormed(p, self, body, TypesAfter(p, self, bs, types, false).value);
    case Loop(id, _, bs, body) =>
      TypedBindingsFormed(p, self, bs, types, true);
      TypedTailFormed(p, self, body, TypesAfter(p, self, bs, types, true).value, id, |Syms(bs)|);
    case If(test, thn, els) =>
      TypedIsFormed(p, self, test, types);
      TypedIsFormed(p, self, thn, types);
      TypedIsFormed(p, self, els, types);
    case Host1(_, a) => TypedIsFormed(p, self, a, types);
    case Host2(_, l, r) => TypedIsFormed(p, self, l, types); TypedIsFormed(p, self, r, types);
    case CoreEquals(l, r) => TypedIsFormed(p, self, l, types); TypedIsFormed(p, self, r, types);
    case Call(_, args) => TypedArgsFormed(p, self, args, types);
    case _ =>
  }

  lemma {:induction false} TypedTailFormed(p: Program, self: FnId, e: Expr, types: Types, id: nat, arity: nat)
    requires LoopTail(p, self, e, types, id, arity)
    ensures FormedTail(e, arity)
    decreases e, 1
  {
    match e
    case Do(r) => TypedTailFormed(p, self, r, types, id, arity);
    case Recur(_, args) => TypedArgsFormed(p, self, args, types);
    case If(test, thn, els) =>
      TypedIsFormed(p, self, test, types);
      TypedTailFormed(p, self, thn, types, id, arity);
      TypedTailFormed(p, self, els, types, id, arity);
    case Let(bs, body) =>
      TypedBindingsFormed(p, self, bs, types, false);
      TypedTailFormed(p, self, body, TypesAfter(p, self, bs, types, false).value, id, arity);
    case BoolLit(_) =>
    case CoreEquals(_, _) =>
    case _ => TypedIsFormed(p, self, e, types);
  }

  lemma {:induction false} TypedArgsFormed(p: Program, self: FnId, es: Exprs, types: Types)
    requires AllInts(p, self, es, types)
    ensures FormedA(es)
    decreases es, 0
  {
    if es.Exprs? {
      TypedIsFormed(p, self, es.head, types);
      TypedArgsFormed(p, self, es.tail, types);
    }
  }

  lemma {:induction false} TypedBindingsFormed(p: Program, self: FnId, bs: Bindings, types: Types, numericOnly: bool)
    requires TypesAfter(p, self, bs, types, numericOnly).Some?
    ensures FormedB(bs)
    decreases bs, 0
  {
    if bs.Binding? {
      TypedIsFormed(p, self, bs.init, types);
      TypedBindingsFormed(p, self, bs.rest, types[bs.sym := ExprType(p, self, bs.init, types).value], numericOnly);
    }
  }
}
