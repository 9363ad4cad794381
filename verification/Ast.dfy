/**
 The analysed program (`pkg/ast/ast.go`) and its evaluation (`pkg/runtime/evalast.go`), with the order
 of effects and errors: every call into the host is an event, and what a host call returns may
 depend on all events before it.
 */
module Ast {
  import opened Objects

  type Sym = nat

  /** Constants: no function is a constant. `Opaque(0)` is the `lang.Numbers` object. */
  datatype Datum = Nil | Bool(b: bool) | Kw(k: int) | Num(n: int) | Opaque(id: int)

  const NUMBERS := Opaque(0)

  datatype Var = Var(ns: string, name: string, macro: bool, dynamic: bool, redef: bool)

  datatype Node =
    | Const(datum: Datum)
    | Local(sym: Sym)
    | VarRef(v: Var)
    | Strict(op: int, args: Nodes)
    | Invoke(fn: Node, args: Nodes)
    | HostCall(target: Node, name: string, resolved: bool, args: Nodes)
    | KeywordLookup(kw: int, target: Node, default: Nodes)
    | Assoc(target: Node, entries: Entries)
    | ReplaceLast(coll: Node, value: Node)
    | If(test: Node, thn: Node, els: Node)
    | Do(stmts: Nodes, ret: Node)
    | Let(bindings: Bindings, body: Node)
    | Loop(bindings: Bindings, body: Node)
    | Recur(args: Nodes)
    | Fn(self: Sym, params: seq<Sym>, body: Node)
    | Def(v: Var, init: Node)
    | SetBang(v: Var, val: Node)
    | Throw(exception: Node)
    | Try(body: Node, kind: Node, catch: Sym, handler: Node, finally: Nodes)
    | Go(call: Node)

  datatype Nodes = NoNodes | Nodes(head: Node, tail: Nodes)

  datatype Entries = NoEntries | Entry(key: Node, val: Node, rest: Entries)

  datatype Bindings = NoBindings | Binding(sym: Sym, init: Node, rest: Bindings)

  function Count(ns: Nodes): nat {
    if ns.NoNodes? then 0 else 1 + Count(ns.tail)
  }

  function Syms(bs: Bindings): seq<Sym> {
    if bs.NoBindings? then [] else [bs.sym] + Syms(bs.rest)
  }

  /** The functions that are not written in the language; `Core` ones are the roots of direct-linked core Vars. */
  datatype Primitive =
    | Core(name: string)
    | Method(name: string)
    | Lookup
    | AssocOne
    | Pop
    | Conj
    | Operator(op: int)
    | Unbound

  datatype Value =
    | Data(d: Datum)
    | Vec(items: seq<Value>)
    | PrimFn(prim: Primitive)
    | Closure(self: Sym, params: seq<Sym>, body: Node, env: Env)

  datatype Env = EmptyEnv | Bound(sym: Sym, value: Value, rest: Env)

  function Find(env: Env, s: Sym): Option<Value> {
    match env
    case EmptyEnv => None
    case Bound(t, v, rest) => if t == s then Some(v) else Find(rest, s)
  }

  function BindAll(env: Env, syms: seq<Sym>, vs: seq<Value>): Env
    decreases |syms|
  {
    if syms == [] || vs == [] then env else BindAll(Bound(syms[0], vs[0], env), syms[1..], vs[1..])
  }

  /** `Spawned` is a goroutine started with a function and its arguments. */
  datatype Event = Called(prim: Primitive, args: seq<Value>) | Spawned(f: Value, args: seq<Value>)

  datatype State = State(roots: map<Var, Value>, trace: seq<Event>)

  datatype Reply = Returned(v: Value) | Raised(error: Value)

  datatype PureReply = Returns(d: Datum) | Traps(error: Datum)

  /**
   The host: what a primitive does after a given history, what a pure Numbers method computes, which
   exceptions a class catches, and the errors that evaluation itself raises.
   `directLinking` says that calls to core Vars may be linked to their roots.
   */
  datatype Host = Host(
    reply: (Primitive, seq<Value>, seq<Event>) -> Reply,
    pure: (string, seq<Datum>) -> PureReply,
    catches: (Value, Value) -> bool,
    directLinking: bool)

  const UNRESOLVED := Data(Opaque(1))
  const BAD_MACRO := Data(Opaque(2))
  const NOT_CALLABLE := Data(Opaque(3))
  const BAD_ARITY := Data(Opaque(4))
  const BAD_RECUR := Data(Opaque(5))
  const EMPTY_POP := Data(Opaque(6))
  const NOT_A_NUMBER := Data(Opaque(7))
  const BAD_GO := Data(Opaque(8))

  /**
   `Recurred` is a `recur` on its way to its loop or function; `Timeout` means that the fuel did not
   suffice; `Unlinked` that the program rebound a Var to which calls had been linked directly.
   */
  datatype Outcome =
    | Val(v: Value, st: State)
    | Threw(error: Value, st: State)
    | Recurred(vs: seq<Value>, st: State)
    | Timeout
    | Unlinked

  datatype Outcomes = Vals(vs: seq<Value>, st: State) | Stop(outcome: Outcome)

  // ---- names the compiler looks at ----

  predicate IsDirect(v: Var, name: string) {
    !v.macro && !v.dynamic && !v.redef && v.ns == "clojure.core" && v.name == name
  }

  predicate IsLinked(v: Var) { IsDirect(v, "conj") || IsDirect(v, "pop") || IsDirect(v, "assoc") }

  function Lower(s: string): string {
    seq(|s|, i requires 0 <= i < |s| => if 'A' <= s[i] <= 'Z' then (s[i] as int + 32) as char else s[i])
  }

  const FOLDABLE: set<string> := {
    "add", "addp", "and", "andnot", "clearbit", "compare", "dec", "decp", "divide", "equiv", "flipbit", "gt", "gte",
    "inc", "incp", "isneg", "ispos", "iszero", "lt", "lte", "max", "min", "minus", "minusp", "multiply", "multiplyp",
    "not", "or", "quotient", "remainder", "rationalize", "setbit", "shiftleft", "shiftright", "testbit",
    "unchecked_inc", "unchecked_minus", "unchecked_multiply", "unchecked_negate", "uncheckedadd", "uncheckeddec",
    "unsignedshiftright", "xor"
  }

  predicate Foldable(target: Node, name: string, resolved: bool) {
    target == Const(NUMBERS) && resolved && Lower(name) in FOLDABLE
  }

  predicate Truthy(v: Value) { v != Data(Datum.Nil) && v != Data(Bool(false)) }

  // ---- evaluation ----

  /** A call into the host: one event, then its reply. */
  function Call(h: Host, prim: Primitive, args: seq<Value>, st: State): Outcome {
    var next := st.(trace := st.trace + [Called(prim, args)]);
    match h.reply(prim, args, st.trace)
    case Returned(v) => Val(v, next)
    case Raised(e) => Threw(e, next)
  }

  function PopValue(h: Host, coll: Value, st: State): Outcome {
    match coll
    case Vec(items) => if items == [] then Threw(EMPTY_POP, st) else Val(Vec(items[..|items| - 1]), st)
    case _ => Call(h, Pop, [coll], st)
  }

  function ConjValue(h: Host, coll: Value, x: Value, st: State): Outcome {
    match coll
    case Vec(items) => Val(Vec(items + [x]), st)
    case _ => Call(h, Conj, [coll, x], st)
  }

  /** The root of `clojure.core/assoc`: one pair, then the rest. */
  function AssocAll(h: Host, m: Value, kvs: seq<Value>, st: State): Outcome
    decreases |kvs|
  {
    if |kvs| < 2 then if kvs == [] then Val(m, st) else Threw(BAD_ARITY, st)
    else
      match Call(h, AssocOne, [m, kvs[0], kvs[1]], st)
      case Val(next, st1) => AssocAll(h, next, kvs[2..], st1)
      case o => o
  }

  function CallCore(h: Host, name: string, args: seq<Value>, st: State): Outcome {
    if name == "pop" && |args| == 1 then PopValue(h, args[0], st)
    else if name == "conj" && |args| == 2 then ConjValue(h, args[0], args[1], st)
    else if name == "assoc" && |args| >= 3 && |args| % 2 == 1 then AssocAll(h, args[0], args[1..], st)
    else Call(h, Core(name), args, st)
  }

  function AllData(vs: seq<Value>): Option<seq<Datum>> {
    if vs == [] then Some([])
    else
      var rest := AllData(vs[1..]);
      if vs[0].Data? && rest.Some? then Some([vs[0].d] + rest.value) else None
  }

  /** A pure Numbers method: no event, and a trap on anything that is not a number. */
  function CallPure(h: Host, name: string, args: seq<Value>, st: State): Outcome {
    var ds := AllData(args);
    if ds.None? then Threw(NOT_A_NUMBER, st)
    else
      match h.pure(Lower(name), ds.value)
      case Returns(d) => Val(Data(d), st)
      case Traps(e) => Threw(Data(e), st)
  }

  /** Fuel is spent by calling a function and by going round a loop. */
  function Apply(h: Host, f: Value, args: seq<Value>, st: State, fuel: nat): Outcome
    decreases fuel, 0
  {
    match f
    case Closure(self, params, body, env) =>
      if |args| != |params| then Threw(BAD_ARITY, st)
      else if fuel == 0 then Timeout
      else Rounds(h, params, body, Bound(self, f, env), args, st, fuel - 1)
    case PrimFn(Core(name)) => CallCore(h, name, args, st)
    case PrimFn(p) => Call(h, p, args, st)
    case Data(Kw(k)) => if |args| == 1 || |args| == 2 then Call(h, Lookup, [f] + args, st) else Threw(BAD_ARITY, st)
    case _ => Threw(NOT_CALLABLE, st)
  }

  /** The body of a loop or of a function, again and again while it recurs. */
  function Rounds(h: Host, syms: seq<Sym>, body: Node, env: Env, vs: seq<Value>, st: State, fuel: nat): Outcome
    decreases fuel, 1, body, 1
  {
    match Eval(h, body, BindAll(env, syms, vs), st, fuel)
    case Recurred(next, st1) =>
      if |next| != |syms| then Threw(BAD_RECUR, st1)
      else if fuel == 0 then Timeout
      else Rounds(h, syms, body, env, next, st1, fuel - 1)
    case o => o
  }

  /** Reading a Var: under direct linking the linked core Vars have their own primitives as roots. */
  function Root(h: Host, v: Var, st: State): Value {
    if h.directLinking && IsLinked(v) then PrimFn(Core(v.name))
    else if v in st.roots then st.roots[v]
    else PrimFn(Unbound)
  }

  function SetRoot(h: Host, v: Var, value: Value, result: Value, st: State): Outcome {
    if h.directLinking && IsLinked(v) then Unlinked else Val(result, st.(roots := st.roots[v := value]))
  }

  function Eval(h: Host, n: Node, env: Env, st: State, fuel: nat): Outcome
    decreases fuel, 1, n, 0
  {
    match n
    case Const(d) => Val(Data(d), st)
    case Local(s) => if Find(env, s).Some? then Val(Find(env, s).value, st) else Threw(UNRESOLVED, st)
    case VarRef(v) => if v.macro then Threw(BAD_MACRO, st) else Val(Root(h, v, st), st)
    case Strict(op, args) =>
      (match EvalAll(h, args, env, st, fuel)
       case Stop(o) => o
       case Vals(vs, st1) => Call(h, Operator(op), vs, st1))
    case Invoke(fn, args) =>
      (match Eval(h, fn, env, st, fuel)
       case Val(f, st1) =>
         (match EvalAll(h, args, env, st1, fuel)
          case Stop(o) => o
          case Vals(vs, st2) => Apply(h, f, vs, st2, fuel))
       case o => o)
    case HostCall(target, name, resolved, args) =>
      if resolved then
        (match EvalAll(h, args, env, st, fuel)
         case Stop(o) => o
         case Vals(vs, st1) => if Foldable(target, name, resolved) then CallPure(h, name, vs, st1)
             else Call(h, Method(name), vs, st1))
      else
        (match Eval(h, target, env, st, fuel)
         case Val(t, st1) =>
           (match EvalAll(h, args, env, st1, fuel)
            case Stop(o) => o
            case Vals(vs, st2) => Call(h, Method(name), [t] + vs, st2))
         case o => o)
    case KeywordLookup(k, target, default) =>
      (match Eval(h, target, env, st, fuel)
       case Val(t, st1) =>
         if default.NoNodes? then Call(h, Lookup, [Data(Kw(k)), t], st1)
         else
           (match Eval(h, default.head, env, st1, fuel)
            case Val(d, st2) => Call(h, Lookup, [Data(Kw(k)), t, d], st2)
            case o => o)
       case o => o)
    case Assoc(target, entries) =>
      (match Eval(h, target, env, st, fuel)
       case Val(m, st1) =>
         (match EvalEntries(h, entries, env, st1, fuel)
          case Stop(o) => o
          case Vals(kvs, st2) => AssocAll(h, m, kvs, st2))
       case o => o)
    case ReplaceLast(coll, value) =>
      (match Eval(h, coll, env, st, fuel)
       case Val(c, st1) =>
         (match PrepareReplaceLast(h, c, st1)
          case Val(plan, st2) =>
            (match Eval(h, value, env, st2, fuel)
             case Val(x, st3) => FinishReplaceLast(h, c, plan, x, st3)
             case o => o)
          case o => o)
       case o => o)
    case If(test, thn, els) =>
      (match Eval(h, test, env, st, fuel)
       case Val(v, st1) => if Truthy(v) then Eval(h, thn, env, st1, fuel) else Eval(h, els, env, st1, fuel)
       case o => o)
    case Do(stmts, ret) =>
      (match EvalAll(h, stmts, env, st, fuel)
       case Stop(o) => o
       case Vals(_, st1) => Eval(h, ret, env, st1, fuel))
    case Let(bs, body) =>
      (match EvalBindings(h, bs, env, st, fuel)
       case Stop(o) => o
       case Vals(vs, st1) => Eval(h, body, BindAll(env, Syms(bs), vs), st1, fuel))
    case Loop(bs, body) =>
      (match EvalBindings(h, bs, env, st, fuel)
       case Stop(o) => o
       case Vals(vs, st1) => Rounds(h, Syms(bs), body, env, vs, st1, fuel))
    case Recur(args) =>
      (match EvalAll(h, args, env, st, fuel)
       case Stop(o) => o
       case Vals(vs, st1) => Recurred(vs, st1))
    case Fn(self, params, body) => Val(Closure(self, params, body, env), st)
    case Def(v, init) =>
      (match Eval(h, init, env, st, fuel)
       case Val(x, st1) => SetRoot(h, v, x, PrimFn(Unbound), st1)
       case o => o)
    case SetBang(v, val) =>
      (match Eval(h, val, env, st, fuel)
       case Val(x, st1) => SetRoot(h, v, x, x, st1)
       case o => o)
    case Throw(e) =>
      (match Eval(h, e, env, st, fuel)
       case Val(x, st1) => Threw(x, st1)
       case o => o)
    case Try(_, _, _, _, finally) =>
      var o := EvalCatch(h, n, env, st, fuel);
      if finally.NoNodes? || (!o.Val? && !o.Threw?) then o
      else
        (match Eval(h, finally.head, env, o.st, fuel)
         case Val(_, st1) => if o.Val? then Val(o.v, st1) else Threw(o.error, st1)
         case late => late)
    case Go(call) =>
      if !call.Invoke? then Threw(BAD_GO, st)
      else
        (match Eval(h, call.fn, env, st, fuel)
         case Val(f, st1) =>
           (match EvalAll(h, call.args, env, st1, fuel)
            case Stop(o) => o
            case Vals(vs, st2) => Val(Data(Datum.Nil), st2.(trace := st2.trace + [Spawned(f, vs)])))
         case o => o)
  }

  /** The pop is done, or at least checked, before the new value is evaluated. */
  function PrepareReplaceLast(h: Host, coll: Value, st: State): Outcome {
    if coll.Vec? && coll.items != [] then Val(coll, st) else PopValue(h, coll, st)
  }

  function FinishReplaceLast(h: Host, coll: Value, plan: Value, x: Value, st: State): Outcome {
    if coll.Vec? && coll.items != [] then Val(Vec(coll.items[|coll.items| - 1 := x]), st) else ConjValue(h, plan, x, st)
  }

  /** The body and its catch clause, without `finally`. A `recur` does not cross a `try`. */
  function EvalCatch(h: Host, n: Node, env: Env, st: State, fuel: nat): Outcome
    requires n.Try?
    decreases fuel, 1, n, -1
  {
    match Eval(h, n.body, env, st, fuel)
    case Threw(e, st1) =>
      (match Eval(h, n.kind, env, st1, fuel)
       case Val(c, st2) =>
         if h.catches(e, c) then
           (match Eval(h, n.handler, Bound(n.catch, e, env), st2, fuel)
            case Recurred(_, st3) => Threw(BAD_RECUR, st3)
            case o => o)
         else Threw(e, st2)
       case Recurred(_, st2) => Threw(BAD_RECUR, st2)
       case o => o)
    case Recurred(_, st1) => Threw(BAD_RECUR, st1)
    case o => o
  }

  function EvalAll(h: Host, ns: Nodes, env: Env, st: State, fuel: nat): Outcomes
    decreases fuel, 1, ns, 0
  {
    match ns
    case NoNodes => Vals([], st)
    case Nodes(n, rest) =>
      match Eval(h, n, env, st, fuel)
      case Val(v, st1) =>
        (match EvalAll(h, rest, env, st1, fuel)
         case Vals(vs, st2) => Vals([v] + vs, st2)
         case stop => stop)
      case o => Stop(o)
  }

  /** Each key, then its value. */
  function EvalEntries(h: Host, es: Entries, env: Env, st: State, fuel: nat): Outcomes
    decreases fuel, 1, es, 0
  {
    match es
    case NoEntries => Vals([], st)
    case Entry(k, v, rest) =>
      match Eval(h, k, env, st, fuel)
      case Val(key, st1) =>
        (match Eval(h, v, env, st1, fuel)
         case Val(val, st2) =>
           (match EvalEntries(h, rest, env, st2, fuel)
            case Vals(vs, st3) => Vals([key, val] + vs, st3)
            case stop => stop)
         case o => Stop(o))
      case o => Stop(o)
  }

  function EvalBindings(h: Host, bs: Bindings, env: Env, st: State, fuel: nat): Outcomes
    decreases fuel, 1, bs, 0
  {
    match bs
    case NoBindings => Vals([], st)
    case Binding(s, init, rest) =>
      match Eval(h, init, env, st, fuel)
      case Val(v, st1) =>
        (match EvalBindings(h, rest, Bound(s, v, env), st1, fuel)
         case Vals(vs, st2) => Vals([v] + vs, st2)
         case stop => stop)
      case o => Stop(o)
  }
}
