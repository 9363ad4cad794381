/**
 The int64 regions of the compiler (`pkg/runtime/codegen_primitive.go`, `codegen_int64.go`): their
 expressions, the structural type check that admits a function, and what the expressions mean.
 Locals are identified by their symbols, functions by the Vars that hold them.
 */
module Int64Source {
  import opened Int64
  import opened Objects

  type Sym = nat
  type FnId = nat

  datatype Type = IntT | BoolT | FnT

  /** `FnV` occurs only in generated code, which keeps its callees in variables. */
  datatype Value = IntV(i: int64) | BoolV(b: bool) | FnV(f: FnId)

  function TypeOf(v: Value): Type {
    match v
    case IntV(_) => IntT
    case BoolV(_) => BoolT
    case FnV(_) => FnT
  }

  datatype Op1 = Inc | UncheckedInc | Dec | UncheckedDec | Negate | UncheckedNegate | IsZero | IsPos | IsNeg

  datatype Op2 = Add | UncheckedAdd | Minus | UncheckedMinus | Multiply | UncheckedMultiply
               | Quotient | Remainder | Lt | Lte | Gt | Gte | Equiv

  datatype Expr =
    | IntLit(i: int64)
    | BoolLit(b: bool)
    | Local(sym: Sym)
    | Do(ret: Expr)
    | Let(bindings: Bindings, body: Expr)
    | Loop(id: nat, guarded: bool, bindings: Bindings, body: Expr)
    | Recur(id: nat, args: Exprs)
    | If(test: Expr, thn: Expr, els: Expr)
    | Host1(op1: Op1, arg: Expr)
    | Host2(op2: Op2, left: Expr, right: Expr)
    | CoreEquals(left: Expr, right: Expr)
    | Call(f: FnId, args: Exprs)

  datatype Bindings = NoBindings | Binding(sym: Sym, init: Expr, rest: Bindings)

  datatype Exprs = NoExprs | Exprs(head: Expr, tail: Exprs)

  function Count(es: Exprs): nat {
    if es.NoExprs? then 0 else 1 + Count(es.tail)
  }

  function Syms(bs: Bindings): seq<Sym> {
    if bs.NoBindings? then [] else [bs.sym] + Syms(bs.rest)
  }

  /** `guarded` says that calls test the root version of the Var; `callees` are the other typed functions called. */
  datatype Fn = Fn(params: seq<Sym>, body: Expr, guarded: bool, int32Params: bool, callees: seq<FnId>)

  /** `current(f)`: the Var still holds the compiled function; otherwise a call reaches `foreign`, which may throw. */
  datatype Program = Program(fns: map<FnId, Fn>, current: FnId -> bool, foreign: (FnId, seq<Value>) -> Option<Value>)

  // ---- the type check ----

  type Types = map<Sym, Type>

  predicate Numeric(op: Op2) {
    || op.Add? || op.UncheckedAdd? || op.Minus? || op.UncheckedMinus?
    || op.Multiply? || op.UncheckedMultiply? || op.Quotient? || op.Remainder?
  }

  function ExprType(p: Program, self: FnId, e: Expr, types: Types): Option<Type>
    decreases e, 0
  {
    match e
    case IntLit(_) => Some(IntT)
    case BoolLit(_) => Some(BoolT)
    case Local(s) => if s in types then Some(types[s]) else None
    case Do(r) => if r.Do? then None else ExprType(p, self, r, types)
    case Let(bs, body) =>
      var inner := TypesAfter(p, self, bs, types, false);
      if inner.None? then None else ExprType(p, self, body, inner.value)
    case Loop(id, _, bs, body) =>
      var inner := TypesAfter(p, self, bs, types, true);
      if inner.Some? && LoopTail(p, self, body, inner.value, id, |Syms(bs)|) then Some(IntT) else None
    case Recur(_, _) => None
    case If(test, thn, els) =>
      if ExprType(p, self, test, types) != Some(BoolT) then None
      else
        var t := ExprType(p, self, thn, types);
        if t.Some? && ExprType(p, self, els, types) == t then t else None
    case Host1(op, a) =>
      if ExprType(p, self, a, types) != Some(IntT) then None
      else Some(if op.IsZero? || op.IsPos? || op.IsNeg? then BoolT else IntT)
    case Host2(op, l, r) =>
      if ExprType(p, self, l, types) != Some(IntT) || ExprType(p, self, r, types) != Some(IntT) then None
      else Some(if Numeric(op) then IntT else BoolT)
    case CoreEquals(l, r) =>
      if ExprType(p, self, l, types) == Some(IntT) && ExprType(p, self, r, types) == Some(IntT)
          then Some(BoolT) else None
    case Call(f, args) =>
      if Callable(p, self, f) && Count(args) == |p.fns[f].params| && AllInts(p, self, args, types)
          then Some(IntT) else None
  }

  predicate Callable(p: Program, self: FnId, f: FnId) {
    self in p.fns && f in p.fns && (f == self || f in p.fns[self].callees)
  }

  predicate LoopTail(p: Program, self: FnId, e: Expr, types: Types, id: nat, arity: nat)
    decreases e, 1
  {
    match e
    case Do(r) => !r.Do? && LoopTail(p, self, r, types, id, arity)
    case Recur(i, args) => i == id && Count(args) == arity && AllInts(p, self, args, types)
    case If(test, thn, els) =>
      && ExprType(p, self, test, types) == Some(BoolT)
      && LoopTail(p, self, thn, types, id, arity)
      && LoopTail(p, self, els, types, id, arity)
    case Let(bs, body) =>
      var inner := TypesAfter(p, self, bs, types, false);
      inner.Some? && LoopTail(p, self, body, inner.value, id, arity)
    case _ => ExprType(p, self, e, types) == Some(IntT)
  }

  predicate AllInts(p: Program, self: FnId, es: Exprs, types: Types)
    decreases es, 0
  {
    es.NoExprs? || (ExprType(p, self, es.head, types) == Some(IntT) && AllInts(p, self, es.tail, types))
  }

  function TypesAfter(p: Program, self: FnId, bs: Bindings, types: Types, numericOnly: bool): Option<Types>
    decreases bs, 0
  {
    match bs
    case NoBindings => Some(types)
    case Binding(s, init, rest) =>
      var t := ExprType(p, self, init, types);
      if t.None? || (numericOnly && t != Some(IntT)) then None
      else TypesAfter(p, self, rest, types[s := t.value], numericOnly)
  }

  function ParamTypes(params: seq<Sym>): Types { map s | s in params :: IntT }

  /** Every function passed the analysis, and an unguarded Var is never redefined. */
  predicate WellTyped(p: Program) {
    forall f :: f in p.fns ==>
      && ExprType(p, f, p.fns[f].body, ParamTypes(p.fns[f].params)) == Some(IntT)
      && (forall g :: g in p.fns[f].callees ==> g in p.fns)
      && (!p.fns[f].guarded ==> p.current(f))
  }

  // ---- meaning ----

  /** `Recurred` is a `recur` on its way to the loop; `Timeout` means that the fuel did not suffice. */
  datatype Outcome = Val(v: Value) | Threw | Recurred(id: nat, vals: seq<Value>) | Timeout

  datatype Outcomes = Vals(vs: seq<Value>) | Abort(outcome: Outcome)

  type Env = map<Sym, Value>

  function Bind<T>(m: map<Sym, T>, syms: seq<Sym>, ts: seq<T>): map<Sym, T>
    decreases |syms|
  {
    if syms == [] || ts == [] then m else Bind(m[syms[0] := ts[0]], syms[1..], ts[1..])
  }

  function Checked(x: int): Outcome {
    if Fits(x) then Val(IntV(x)) else Threw
  }

  function Apply1(op: Op1, v: Value): Outcome {
    if !v.IntV? then Threw
    else
      match op
      case Inc => Checked(v.i + 1)
      case UncheckedInc => Val(IntV(Wrap(v.i + 1)))
      case Dec => Checked(v.i - 1)
      case UncheckedDec => Val(IntV(Wrap(v.i - 1)))
      case Negate => Checked(-(v.i as int))
      case UncheckedNegate => Val(IntV(Wrap(-(v.i as int))))
      case IsZero => Val(BoolV(v.i == 0))
      case IsPos => Val(BoolV(v.i > 0))
      case IsNeg => Val(BoolV(v.i < 0))
  }

  function Apply2(op: Op2, v: Value, w: Value): Outcome {
    if !v.IntV? || !w.IntV? then Threw
    else
      var a, b := v.i, w.i;
      match op
      case Add => Checked(a + b)
      case UncheckedAdd => Val(IntV(Wrap(a + b)))
      case Minus => Checked(a - b)
      case UncheckedMinus => Val(IntV(Wrap(a - b)))
      case Multiply => Checked(a * b)
      case UncheckedMultiply => Val(IntV(Wrap(a * b)))
      case Quotient => if b == 0 then Threw else Val(IntV(GoQuo(a, b)))
      case Remainder => if b == 0 then Threw else Val(IntV(GoRem(a, b)))
      case Lt => Val(BoolV(a < b))
      case Lte => Val(BoolV(a <= b))
      case Gt => Val(BoolV(a > b))
      case Gte => Val(BoolV(a >= b))
      case Equiv => Val(BoolV(a == b))
  }

  /** Fuel is spent by going round a loop and by calling a function. */
  function Eval(p: Program, e: Expr, env: Env, fuel: nat): Outcome
    decreases fuel, 0, e, 0
  {
    match e
    case IntLit(i) => Val(IntV(i))
    case BoolLit(b) => Val(BoolV(b))
    case Local(s) => if s in env then Val(env[s]) else Threw
    case Do(r) => Eval(p, r, env, fuel)
    case Let(bs, body) =>
      (match EvalBindings(p, bs, env, fuel)
       case Abort(o) => o
       case Vals(vs) => Eval(p, body, Bind(env, Syms(bs), vs), fuel))
    case Loop(id, _, bs, body) =>
      (match EvalBindings(p, bs, env, fuel)
       case Abort(o) => o
       case Vals(vs) => EvalLoop(p, id, Syms(bs), body, env, vs, fuel))
    case Recur(id, args) =>
      (match EvalArgs(p, args, env, fuel)
       case Abort(o) => o
       case Vals(vs) => Recurred(id, vs))
    case If(test, thn, els) =>
      (match Eval(p, test, env, fuel)
       case Val(v) => Eval(p, if v == BoolV(false) then els else thn, env, fuel)
       case o => o)
    case Host1(op, a) =>
      (match Eval(p, a, env, fuel)
       case Val(v) => Apply1(op, v)
       case o => o)
    case Host2(op, l, r) => Combine(op, Eval(p, l, env, fuel), Eval(p, r, env, fuel))
    case CoreEquals(l, r) => Combine(Equiv, Eval(p, l, env, fuel), Eval(p, r, env, fuel))
    case Call(f, args) =>
      (match EvalArgs(p, args, env, fuel)
       case Abort(o) => o
       case Vals(vs) => if fuel == 0 then Timeout else EvalCall(p, f, vs, fuel - 1))
  }

  /** The left operand's failure comes first. */
  function Combine(op: Op2, left: Outcome, right: Outcome): Outcome {
    if !left.Val? then left else if !right.Val? then right else Apply2(op, left.v, right.v)
  }

  function EvalCall(p: Program, f: FnId, args: seq<Value>, fuel: nat): Outcome
    decreases fuel, 1
  {
    if f !in p.fns || !p.current(f) then
      var r := p.foreign(f, args);
      if r.None? then Threw else Val(r.value)
    else EvalFn(p, p.fns[f], args, fuel)
  }

  /** The body of a function on its arguments: what the ordinary, generic code computes. */
  function EvalFn(p: Program, fn: Fn, args: seq<Value>, fuel: nat): Outcome
    decreases fuel, 0, fn.body, 1
  {
    Eval(p, fn.body, Bind(map[], fn.params, args), fuel)
  }

  /** All loop variables are rebound at once, over the environment outside the loop. */
  function EvalLoop(p: Program, id: nat, syms: seq<Sym>, body: Expr, env: Env, vals: seq<Value>, fuel: nat): Outcome
    decreases fuel, 0, body, 1
  {
    match Eval(p, body, Bind(env, syms, vals), fuel)
    case Recurred(i, next) =>
      if i != id || |next| != |syms| then Threw
      else if fuel == 0 then Timeout
      else EvalLoop(p, id, syms, body, env, next, fuel - 1)
    case o => o
  }

  function EvalArgs(p: Program, es: Exprs, env: Env, fuel: nat): (r: Outcomes)
    ensures r.Vals? ==> |r.vs| == Count(es)
    decreases fuel, 0, es, 0
  {
    match es
    case NoExprs => Vals([])
    case Exprs(e, rest) =>
      match Eval(p, e, env, fuel)
      case Val(v) =>
        (match EvalArgs(p, rest, env, fuel)
         case Vals(vs) => Vals([v] + vs)
         case abort => abort)
      case o => Abort(o)
  }

  /** Each binding sees the ones before it. */
  function EvalBindings(p: Program, bs: Bindings, env: Env, fuel: nat): Outcomes
    decreases fuel, 0, bs, 0
  {
    match bs
    case NoBindings => Vals([])
    case Binding(s, init, rest) =>
      match Eval(p, init, env, fuel)
      case Val(v) =>
        (match EvalBindings(p, rest, env[s := v], fuel)
         case Vals(vs) => Vals([v] + vs)
         case abort => abort)
      case o => Abort(o)
  }
}
