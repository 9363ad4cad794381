/**
 The fragment of Go that the int64 emitter writes (`pkg/runtime/codegen_int64.go`): block-scoped
 variables, labelled loops, a helper `func(...) (int64, bool)` per function, and how it runs.
 Variables and labels are the numbers of generated temporaries.
 */
module GoCode {
  import opened Int64
  import opened Objects
  import opened Int64Source

  type Name = nat

  datatype GoUnary = CheckedNegate | Minus

  datatype GoBinary = CheckedAdd | CheckedSub | CheckedMul | Plus | Sub | Times | Div | Rem
                    | Less | LessEq | Greater | GreaterEq | Equal

  /** `GFnVar(f)` is the package-level variable of a helper, `GStale(f)` is `f.RootVersion() != version`. */
  datatype GExpr =
    | GInt(i: int64)
    | GBool(b: bool)
    | GVar(name: Name)
    | GFnVar(f: FnId)
    | GStale(f: FnId)
    | GNot(arg: GExpr)
    | GOr(left: GExpr, right: GExpr)
    | GUnary(unary: GoUnary, arg: GExpr)
    | GBinary(binary: GoBinary, left: GExpr, right: GExpr)

  datatype Stmt =
    | Skip
    | Seq(first: Stmt, second: Stmt)
    | Decl(name: Name, typ: Type)
    | Define(name: Name, value: GExpr)
    | Assign(name: Name, value: GExpr)
    | If1(cond: GExpr, body: Stmt)
    | If2(cond: GExpr, thn: Stmt, els: Stmt)
    | Block(body: Stmt)
    | For(lbl: Name, body: Stmt)
    | Continue(lbl: Name)
    | Break(lbl: Name)
    | ReturnFail
    | CallHelper(result: Name, ok: Name, helper: Name, args: seq<GExpr>)

  /** `func(params) (int64, bool) { body; return result, true }`, held by the variable `name`. */
  datatype Helper = Helper(name: Name, params: seq<Name>, body: Stmt, result: GExpr)

  /** `starts` gives the first temporary of each helper. */
  datatype World = World(p: Program, code: map<FnId, Helper>, starts: map<FnId, Name>)

  // ---- running it ----

  type Vars = map<Name, Value>

  /** `GStuck` and `Stuck` are what scoping and typing rule out: a missing, repeated or ill-typed variable or label. */
  datatype GResult = GVal(v: Value) | GPanic | GStuck

  datatype GResults = GVals(vs: seq<Value>) | GsPanic | GsStuck

  datatype Result =
    | Normal(vars: Vars)
    | Continued(lbl: Name, vars: Vars)
    | Broken(lbl: Name, vars: Vars)
    | Failed
    | Panicked
    | OutOfFuel
    | Stuck

  /** What a helper returns: `(v, true)`, `(0, false)`, a panic, no return yet. */
  datatype Return = Ok(v: int64) | NotOk | ReturnPanic | NoReturn | BadCode

  function FromChecked(r: Option<int64>): GResult {
    if r.None? then GPanic else GVal(IntV(r.value))
  }

  function RunUnary(op: GoUnary, v: Value): GResult {
    if !v.IntV? then GStuck
    else
      match op
      case CheckedNegate => FromChecked(Int64.CheckedNegate(v.i))
      case Minus => GVal(IntV(Wrap(-(v.i as int))))
  }

  function RunBinary(op: GoBinary, v: Value, w: Value): GResult {
    if !v.IntV? || !w.IntV? then GStuck
    else
      var a, b := v.i, w.i;
      match op
      case CheckedAdd => FromChecked(Int64.CheckedAdd(a, b))
      case CheckedSub => FromChecked(Int64.CheckedSub(a, b))
      case CheckedMul => FromChecked(Int64.CheckedMultiply(a, b))
      case Plus => GVal(IntV(Wrap(a + b)))
      case Sub => GVal(IntV(Wrap(a - b)))
      case Times => GVal(IntV(Wrap(a * b)))
      case Div => if b == 0 then GPanic else GVal(IntV(GoQuo(a, b)))
      case Rem => if b == 0 then GPanic else GVal(IntV(GoRem(a, b)))
      case Less => GVal(BoolV(a < b))
      case LessEq => GVal(BoolV(a <= b))
      case Greater => GVal(BoolV(a > b))
      case GreaterEq => GVal(BoolV(a >= b))
      case Equal => GVal(BoolV(a == b))
  }

  function GEval(p: Program, g: GExpr, vars: Vars): GResult {
    match g
    case GInt(i) => GVal(IntV(i))
    case GBool(b) => GVal(BoolV(b))
    case GVar(n) => if n in vars then GVal(vars[n]) else GStuck
    case GFnVar(f) => GVal(FnV(f))
    case GStale(f) => GVal(BoolV(!p.current(f)))
    case GNot(a) =>
      (match GEval(p, a, vars)
       case GVal(BoolV(b)) => GVal(BoolV(!b))
       case GVal(_) => GStuck
       case r => r)
    case GOr(a, b) =>
      (match GEval(p, a, vars)
       case GVal(BoolV(true)) => GVal(BoolV(true))
       case GVal(BoolV(false)) => GEval(p, b, vars)
       case GVal(_) => GStuck
       case r => r)
    case GUnary(op, a) =>
      (match GEval(p, a, vars)
       case GVal(v) => RunUnary(op, v)
       case r => r)
    case GBinary(op, a, b) => Operands(op, GEval(p, a, vars), GEval(p, b, vars))
  }

  /** Go may evaluate the operands in either order, so only whether some operand panics is fixed. */
  function Operands(op: GoBinary, a: GResult, b: GResult): GResult {
    if a.GStuck? || b.GStuck? then GStuck
    else if a.GPanic? || b.GPanic? then GPanic
    else RunBinary(op, a.v, b.v)
  }

  function GEvalAll(p: Program, gs: seq<GExpr>, vars: Vars): GResults {
    if gs == [] then GVals([])
    else
      match (GEval(p, gs[0], vars), GEvalAll(p, gs[1..], vars))
      case (GStuck, _) => GsStuck
      case (_, GsStuck) => GsStuck
      case (GPanic, _) => GsPanic
      case (_, GsPanic) => GsPanic
      case (GVal(v), GVals(vs)) => GVals([v] + vs)
  }

  function Zero(t: Type): Value {
    if t.IntT? then IntV(0) else if t.BoolT? then BoolV(false) else FnV(0)
  }

  /** The variables that survive the end of a block. */
  function Outside(vars: Vars, entry: Vars): Vars { map n | n in vars && n in entry :: vars[n] }

  function Leave(r: Result, entry: Vars): Result {
    match r
    case Normal(vars) => Normal(Outside(vars, entry))
    case Continued(l, vars) => Continued(l, Outside(vars, entry))
    case Broken(l, vars) => Broken(l, Outside(vars, entry))
    case _ => r
  }

  function Exec(w: World, s: Stmt, vars: Vars, fuel: nat): Result
    decreases fuel, 0, s, 0
  {
    match s
    case Skip => Normal(vars)
    case Seq(a, b) =>
      (match Exec(w, a, vars, fuel)
       case Normal(next) => Exec(w, b, next, fuel)
       case r => r)
    case Decl(n, t) => if n in vars then Stuck else Normal(vars[n := Zero(t)])
    case Define(n, g) =>
      (match GEval(w.p, g, vars)
       case GVal(v) => if n in vars then Stuck else Normal(vars[n := v])
       case GPanic => Panicked
       case GStuck => Stuck)
    case Assign(n, g) =>
      (match GEval(w.p, g, vars)
       case GVal(v) => if n !in vars || TypeOf(vars[n]) != TypeOf(v) then Stuck else Normal(vars[n := v])
       case GPanic => Panicked
       case GStuck => Stuck)
    case If1(c, body) =>
      (match GEval(w.p, c, vars)
       case GVal(BoolV(b)) => if b then Leave(Exec(w, body, vars, fuel), vars) else Normal(vars)
       case GPanic => Panicked
       case _ => Stuck)
    case If2(c, thn, els) =>
      (match GEval(w.p, c, vars)
       case GVal(BoolV(b)) => Leave(Exec(w, if b then thn else els, vars, fuel), vars)
       case GPanic => Panicked
       case _ => Stuck)
    case Block(body) => Leave(Exec(w, body, vars, fuel), vars)
    case For(l, body) => ExecFor(w, l, body, vars, fuel)
    case Continue(l) => Continued(l, vars)
    case Break(l) => Broken(l, vars)
    case ReturnFail => Failed
    case CallHelper(r, ok, h, args) =>
      (match GEvalAll(w.p, args, vars)
       case GsPanic => Panicked
       case GsStuck => Stuck
       case GVals(vs) =>
         if h !in vars || !vars[h].FnV? || r in vars || ok in vars || r == ok then Stuck
         else if fuel == 0 then OutOfFuel
         else
           match RunHelper(w, vars[h].f, vs, fuel - 1)
           case Ok(v) => Normal(vars[r := IntV(v)][ok := BoolV(true)])
           case NotOk => Normal(vars[r := IntV(0)][ok := BoolV(false)])
           case ReturnPanic => Panicked
           case NoReturn => OutOfFuel
           case BadCode => Stuck)
  }

  /** `lbl: for { body }` */
  function ExecFor(w: World, lbl: Name, body: Stmt, vars: Vars, fuel: nat): Result
    decreases fuel, 0, body, 1
  {
    match Leave(Exec(w, body, vars, fuel), vars)
    case Normal(next) => if fuel == 0 then OutOfFuel else ExecFor(w, lbl, body, next, fuel - 1)
    case Continued(l, next) =>
      if l != lbl then Continued(l, next)
      else if fuel == 0 then OutOfFuel
      else ExecFor(w, lbl, body, next, fuel - 1)
    case Broken(l, next) => if l == lbl then Normal(next) else Broken(l, next)
    case r => r
  }

  /** The variables a helper starts with: itself, captured, and its parameters. */
  function EntryVars(h: Helper, f: FnId, args: seq<Value>): Vars {
    Bind(map[h.name := FnV(f)], h.params, args)
  }

  function RunHelper(w: World, f: FnId, args: seq<Value>, fuel: nat): Return
    decreases fuel, 1
  {
    if f !in w.code || |args| != |w.code[f].params| then BadCode
    else
      var h := w.code[f];
      match Exec(w, h.body, EntryVars(h, f, args), fuel)
      case Failed => NotOk
      case Panicked => ReturnPanic
      case OutOfFuel => NoReturn
      case Normal(vars) =>
        (match GEval(w.p, h.result, vars)
         case GVal(IntV(v)) => Ok(v)
         case GPanic => ReturnPanic
         case _ => BadCode)
      case _ => BadCode
  }
}
