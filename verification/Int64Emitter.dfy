/**
 The int64 emitter of `pkg/runtime/codegen_int64.go` as a function: the code for an expression, the
 Go expression that holds its value afterwards, and the next unused temporary.
 */
module Int64Emitter {
  import opened Objects
  import opened Int64Source
  import opened GoCode

  datatype TypedLocal = TypedLocal(name: Name, typ: Type)

  type Locals = map<Sym, TypedLocal>

  /** The function being compiled, its helper's variable, and the variables that hold its callees. */
  datatype Context = Context(p: Program, self: FnId, helper: Name, callees: map<FnId, Name>)

  datatype Emitted = Emitted(code: Stmt, value: GExpr, next: Name)

  datatype EmittedArgs = EmittedArgs(code: Stmt, values: seq<GExpr>, next: Name)

  datatype EmittedBindings = EmittedBindings(code: Stmt, locals: Locals, names: seq<Name>, next: Name)

  function TypesOf(locals: Locals): Types { map s | s in locals :: locals[s].typ }

  function TypeOr(t: Option<Type>): Type { if t.Some? then t.value else IntT }

  function Emit(c: Context, e: Expr, locals: Locals, n: Name): (r: Emitted)
    ensures r.next >= n
    decreases e, 0
  {
    match e
    case IntLit(i) => Emitted(Skip, GInt(i), n)
    case BoolLit(b) => Emitted(Skip, GBool(b), n)
    case Local(s) => Emitted(Skip, GVar(if s in locals then locals[s].name else 0), n)
    case Do(ret) => if ret.Do? then Unsupported(n) else Emit(c, ret, locals, n)
    case Let(bs, body) =>
      var result := n;
      var typ := ExprType(c.p, c.self, e, TypesOf(locals));
      var b := EmitBindings(c, bs, locals, n + 1);
      var a := Emit(c, body, b.locals, b.next);
      Emitted(Seq(Decl(result, TypeOr(typ)), Block(Seq(b.code, Seq(a.code, Assign(result, a.value))))),
        GVar(result), a.next)
    case Loop(_, guarded, bs, body) =>
      var result, lbl := n, n + 1;
      var b := EmitBindings(c, bs, locals, n + 2);
      var tail := EmitTail(c, body, b.locals, b.names, result, lbl, b.next);
      var guards := if guarded then Int32Guards(b.names) else Skip;
      Emitted(Seq(Decl(result, IntT), Block(Seq(b.code, For(lbl, Seq(guards, tail.code))))), GVar(result), tail.next)
    case If(test, thn, els) =>
      var result := n;
      var typ := ExprType(c.p, c.self, e, TypesOf(locals));
      var t := Emit(c, test, locals, n + 1);
      var a := Emit(c, thn, locals, t.next);
      var b := Emit(c, els, locals, a.next);
      Emitted(Seq(Decl(result, TypeOr(typ)),
                  Seq(t.code, If2(t.value, Seq(a.code, Assign(result, a.value)),
                    Seq(b.code, Assign(result, b.value))))),
              GVar(result), b.next)
    case Host1(op, arg) =>
      var a := Emit(c, arg, locals, n);
      Emitted(a.code, UnaryCode(op, a.value), a.next)
    case Host2(op, left, right) =>
      var a := Emit(c, left, locals, n);
      var b := Emit(c, right, locals, a.next);
      Emitted(Seq(a.code, b.code), BinaryCode(op, a.value, b.value), b.next)
    case CoreEquals(left, right) =>
      var a := Emit(c, left, locals, n);
      var b := Emit(c, right, locals, a.next);
      Emitted(Seq(a.code, b.code), GBinary(Equal, a.value, b.value), b.next)
    case Call(f, args) =>
      var a := EmitArgs(c, args, locals, n);
      var result, ok := a.next, a.next + 1;
      Emitted(Seq(a.code, Seq(CalleeGuard(c, f), Seq(CallHelper(result, ok, HelperName(c, f), a.values),
                                                     If1(GNot(GVar(ok)), ReturnFail)))),
              GVar(result), ok + 1)
    case Recur(_, _) => Unsupported(n)
  }

  /** The emitter panics here; the type check admits no such expression. */
  function Unsupported(n: Name): Emitted { Emitted(Skip, GInt(0), n) }

  function UnaryCode(op: Op1, a: GExpr): GExpr {
    match op
    case Inc => GBinary(CheckedAdd, a, GInt(1))
    case UncheckedInc => GBinary(Plus, a, GInt(1))
    case Dec => GBinary(CheckedSub, a, GInt(1))
    case UncheckedDec => GBinary(Sub, a, GInt(1))
    case Negate => GUnary(GoUnary.CheckedNegate, a)
    case UncheckedNegate => GUnary(GoUnary.Minus, a)
    case IsZero => GBinary(Equal, a, GInt(0))
    case IsPos => GBinary(Greater, a, GInt(0))
    case IsNeg => GBinary(Less, a, GInt(0))
  }

  function BinaryCode(op: Op2, a: GExpr, b: GExpr): GExpr {
    match op
    case Add => GBinary(CheckedAdd, a, b)
    case UncheckedAdd => GBinary(Plus, a, b)
    case Minus => GBinary(CheckedSub, a, b)
    case UncheckedMinus => GBinary(Sub, a, b)
    case Multiply => GBinary(CheckedMul, a, b)
    case UncheckedMultiply => GBinary(Times, a, b)
    case Quotient => GBinary(Div, a, b)
    case Remainder => GBinary(Rem, a, b)
    case Lt => GBinary(Less, a, b)
    case Lte => GBinary(LessEq, a, b)
    case Gt => GBinary(Greater, a, b)
    case Gte => GBinary(GreaterEq, a, b)
    case Equiv => GBinary(Equal, a, b)
  }

  /** Another function's Var is tested before the call; a helper tests its own Var when it starts. */
  function CalleeGuard(c: Context, f: FnId): Stmt {
    if f != c.self && f in c.p.fns && c.p.fns[f].guarded then If1(GStale(f), ReturnFail) else Skip
  }

  function HelperName(c: Context, f: FnId): Name {
    if f == c.self || f !in c.callees then c.helper else c.callees[f]
  }

  function Int32Guards(names: seq<Name>): Stmt {
    if names == [] then Skip
    else
      Seq(If1(GOr(GBinary(Less, GVar(names[0]), GInt(-2147483647)), GBinary(Greater, GVar(names[0]), GInt(2147483647))),
              ReturnFail),
          Int32Guards(names[1..]))
  }

  function EmitArgs(c: Context, es: Exprs, locals: Locals, n: Name): (r: EmittedArgs)
    ensures r.next >= n
    decreases es, 0
  {
    match es
    case NoExprs => EmittedArgs(Skip, [], n)
    case Exprs(e, rest) =>
      var a := Emit(c, e, locals, n);
      var b := EmitArgs(c, rest, locals, a.next);
      EmittedArgs(Seq(a.code, b.code), [a.value] + b.values, b.next)
  }

  /** `name := value` for each binding, in scope of the ones before it. */
  function EmitBindings(c: Context, bs: Bindings, locals: Locals, n: Name): (r: EmittedBindings)
    ensures r.next >= n
    decreases bs, 0
  {
    match bs
    case NoBindings => EmittedBindings(Skip, locals, [], n)
    case Binding(s, init, rest) =>
      var a := Emit(c, init, locals, n);
      var local := TypedLocal(a.next, TypeOr(ExprType(c.p, c.self, init, TypesOf(locals))));
      var b := EmitBindings(c, rest, locals[s := local], a.next + 1);
      EmittedBindings(Seq(Seq(a.code, Define(a.next, a.value)), b.code), b.locals, [a.next] + b.names, b.next)
  }

  datatype EmittedTail = EmittedTail(code: Stmt, next: Name)

  /** Code in tail position of a loop: it ends in `continue` or in `break`. */
  function EmitTail(c: Context, e: Expr, locals: Locals, loopNames: seq<Name>, result: Name, lbl: Name,
          n: Name): (r: EmittedTail)
    ensures r.next >= n
    decreases e, 2
  {
    match e
    case Do(ret) => if ret.Do? then EmitLast(c, e, locals, result, lbl, n)
        else EmitTail(c, ret, locals, loopNames, result, lbl, n)
    case Recur(_, args) =>
      var a := EmitNext(c, args, locals, n);
      EmittedTail(Seq(a.code, Seq(AssignAll(loopNames, a.names), Continue(lbl))), a.next)
    case If(test, thn, els) =>
      var t := Emit(c, test, locals, n);
      var a := EmitTail(c, thn, locals, loopNames, result, lbl, t.next);
      var b := EmitTail(c, els, locals, loopNames, result, lbl, a.next);
      EmittedTail(Seq(t.code, If2(t.value, a.code, b.code)), b.next)
    case Let(bs, body) =>
      var b := EmitBindings(c, bs, locals, n);
      var tail := EmitTail(c, body, b.locals, loopNames, result, lbl, b.next);
      EmittedTail(Block(Seq(b.code, tail.code)), tail.next)
    case _ => EmitLast(c, e, locals, result, lbl, n)
  }

  function EmitLast(c: Context, e: Expr, locals: Locals, result: Name, lbl: Name, n: Name): (r: EmittedTail)
    ensures r.next >= n
    decreases e, 1
  {
    var a := Emit(c, e, locals, n);
    EmittedTail(Seq(a.code, Seq(Assign(result, a.value), Break(lbl))), a.next)
  }

  datatype EmittedNext = EmittedNext(code: Stmt, names: seq<Name>, next: Name)

  /** The new loop values go to temporaries first, because each may read the old loop variables. */
  function EmitNext(c: Context, es: Exprs, locals: Locals, n: Name): (r: EmittedNext)
    ensures r.next >= n
    decreases es, 0
  {
    match es
    case NoExprs => EmittedNext(Skip, [], n)
    case Exprs(e, rest) =>
      var a := Emit(c, e, locals, n);
      var b := EmitNext(c, rest, locals, a.next + 1);
      EmittedNext(Seq(Seq(a.code, Define(a.next, a.value)), b.code), [a.next] + b.names, b.next)
  }

  function AssignAll(names: seq<Name>, values: seq<Name>): Stmt {
    if names == [] || values == [] then Skip
    else Seq(Assign(names[0], GVar(values[0])), AssignAll(names[1..], values[1..]))
  }

  // ---- one function ----

  function Fresh(n: Name, count: nat): seq<Name> { seq(count, i => n + i) }

  function ParamLocals(params: seq<Sym>, names: seq<Name>): Locals
    requires |params| == |names|
  {
    Bind(map[], params, seq(|names|, i requires 0 <= i < |names| => TypedLocal(names[i], IntT)))
  }

  function CalleeNames(callees: seq<FnId>, n: Name): map<FnId, Name>
    decreases |callees|
  {
    if callees == [] then map[] else CalleeNames(callees[1..], n + 1)[callees[0] := n]
  }

  function CalleeCode(callees: seq<FnId>, n: Name): Stmt {
    if callees == [] then Skip else Seq(Define(n, GFnVar(callees[0])), CalleeCode(callees[1..], n + 1))
  }

  /** Does the function call itself? */
  predicate UsesSelf(e: Expr, self: FnId) {
    match e
    case Do(r) => UsesSelf(r, self)
    case Let(bs, body) => UsesSelfB(bs, self) || UsesSelf(body, self)
    case Loop(_, _, bs, body) => UsesSelfB(bs, self) || UsesSelf(body, self)
    case Recur(_, args) => UsesSelfA(args, self)
    case If(test, thn, els) => UsesSelf(test, self) || UsesSelf(thn, self) || UsesSelf(els, self)
    case Host1(_, a) => UsesSelf(a, self)
    case Host2(_, l, r) => UsesSelf(l, self) || UsesSelf(r, self)
    case CoreEquals(l, r) => UsesSelf(l, self) || UsesSelf(r, self)
    case Call(f, args) => f == self || UsesSelfA(args, self)
    case _ => false
  }

  predicate UsesSelfA(es: Exprs, self: FnId) {
    es.Exprs? && (UsesSelf(es.head, self) || UsesSelfA(es.tail, self))
  }

  predicate UsesSelfB(bs: Bindings, self: FnId) {
    bs.Binding? && (UsesSelf(bs.init, self) || UsesSelfB(bs.rest, self))
  }

  /** The helper of `f`, whose temporaries start at `n`. */
  function EmitHelper(p: Program, f: FnId, n: Name): Helper
    requires f in p.fns
  {
    var fn := p.fns[f];
    var k := |fn.params|;
    var params := Fresh(n + 1, k);
    var c := HelperContext(p, f, n);
    var r := Emit(c, fn.body, ParamLocals(fn.params, params), n + 1 + k + |fn.callees|);
    var guards := if fn.int32Params then Int32Guards(params) else Skip;
    var selfGuard := if UsesSelf(fn.body, f) && fn.guarded then If1(GStale(f), ReturnFail) else Skip;
    Helper(n, params, Seq(guards, Seq(selfGuard, Seq(CalleeCode(fn.callees, n + 1 + k), r.code))), r.value)
  }

  function HelperContext(p: Program, f: FnId, n: Name): Context
    requires f in p.fns
  {
    Context(p, f, n, CalleeNames(p.fns[f].callees, n + 1 + |p.fns[f].params|))
  }

  /** Every helper has been generated. */
  predicate Compiled(w: World) {
    && w.code.Keys == w.p.fns.Keys == w.starts.Keys
    && forall f :: f in w.p.fns ==> w.code[f] == EmitHelper(w.p, f, w.starts[f])
  }
}
