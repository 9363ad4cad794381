/**
 The emitter as `pkg/runtime/codegen_int64.go` runs it: methods that append lines to the generator's
 buffer and draw temporaries from its counter, proved to write exactly the emitter's statements.
 */
module Int64Generator {
  import opened Int64Source
  import opened GoCode
  import opened Int64Emitter

  /** One line of generated text. */
  datatype Line =
    | LVar(name: Name, typ: Type)
    | LDefine(name: Name, value: GExpr)
    | LAssign(name: Name, value: GExpr)
    | LIf(cond: GExpr)
    | LElse
    | LOpen
    | LClose
    | LLabel(lbl: Name)
    | LFor
    | LContinue(lbl: Name)
    | LBreak(lbl: Name)
    | LReturnFail
    | LCall(result: Name, ok: Name, helper: Name, args: seq<GExpr>)

  function Lines(s: Stmt): seq<Line> {
    match s
    case Skip => []
    case Seq(a, b) => Lines(a) + Lines(b)
    case Decl(n, t) => [LVar(n, t)]
    case Define(n, g) => [LDefine(n, g)]
    case Assign(n, g) => [LAssign(n, g)]
    case If1(c, body) => [LIf(c)] + Lines(body) + [LClose]
    case If2(c, thn, els) => [LIf(c)] + Lines(thn) + [LElse] + Lines(els) + [LClose]
    case Block(body) => [LOpen] + Lines(body) + [LClose]
    case For(l, body) => [LLabel(l), LFor] + Lines(body) + [LClose]
    case Continue(l) => [LContinue(l)]
    case Break(l) => [LBreak(l)]
    case ReturnFail => [LReturnFail]
    case CallHelper(r, ok, h, args) => [LCall(r, ok, h, args)]
  }

  // ---- the text of each construct ----

  lemma LetLines(n: Name, t: Type, a: Stmt, b: Stmt, g: GExpr)
    ensures Lines(Seq(Decl(n, t), Block(Seq(a, Seq(b, Assign(n, g)))))) == [LVar(n, t), LOpen] + Lines(a)
            + Lines(b) + [LAssign(n, g), LClose]
  {
    hide Lines;
    AssignLines(b, n, g);
    BlockLines(a, Seq(b, Assign(n, g)));
    DeclLines(n, t, Block(Seq(a, Seq(b, Assign(n, g)))));
  }

  lemma LoopLines(n: Name, l: Name, a: Stmt, guards: Stmt, body: Stmt)
    ensures Lines(Seq(Decl(n, IntT), Block(Seq(a, For(l, Seq(guards, body))))))
         == [LVar(n, IntT), LOpen] + Lines(a) + [LLabel(l), LFor] + Lines(guards) + Lines(body) + [LClose, LClose]
  {
    ForLines(l, guards, body);
    hide Lines;
    var loop := For(l, Seq(guards, body));
    BlockLines(a, loop);
    DeclLines(n, IntT, Block(Seq(a, loop)));
  }

  lemma DeclLines(n: Name, t: Type, rest: Stmt)
    ensures Lines(Seq(Decl(n, t), rest)) == [LVar(n, t)] + Lines(rest)
  {}

  lemma ForLines(l: Name, guards: Stmt, body: Stmt)
    ensures Lines(For(l, Seq(guards, body))) == [LLabel(l), LFor] + Lines(guards) + Lines(body) + [LClose]
  {
    SeqLines(guards, body);
  }

  lemma If2Lines(q: Stmt, g: GExpr, a: Stmt, b: Stmt)
    ensures Lines(Seq(q, If2(g, a, b))) == Lines(q) + [LIf(g)] + Lines(a) + [LElse] + Lines(b) + [LClose]
  {
    SeqLines(q, If2(g, a, b));
  }

  lemma IfLines(n: Name, t: Type, q: Stmt, g: GExpr, a: Stmt, ga: GExpr, b: Stmt, gb: GExpr)
    ensures Lines(Seq(Decl(n, t), Seq(q, If2(g, Seq(a, Assign(n, ga)), Seq(b, Assign(n, gb))))))
         == [LVar(n, t)] + Lines(q) + [LIf(g)] + Lines(a) + [LAssign(n, ga), LElse] + Lines(b)
           + [LAssign(n, gb), LClose]
  {
    hide Lines;
    AssignLines(a, n, ga);
    AssignLines(b, n, gb);
    If2Lines(q, g, Seq(a, Assign(n, ga)), Seq(b, Assign(n, gb)));
    DeclLines(n, t, Seq(q, If2(g, Seq(a, Assign(n, ga)), Seq(b, Assign(n, gb)))));
  }

  lemma AssignLines(a: Stmt, n: Name, g: GExpr)
    ensures Lines(Seq(a, Assign(n, g))) == Lines(a) + [LAssign(n, g)]
  {}

  lemma Assoc<T>(before: seq<T>, x: T, after: seq<T>)
    ensures before + ([x] + after) == before + [x] + after
  {}

  lemma SkipLines()
    ensures Lines(Skip) == []
  {}

  lemma PairLines(c: Context, left: Expr, right: Expr, locals: Locals, n: Name)
    ensures var a := Emit(c, left, locals, n);
            var b := Emit(c, right, locals, a.next);
            Lines(Seq(a.code, b.code)) == Lines(a.code) + Lines(b.code)
  {
    hide Emit;
  }

  lemma SeqLines(a: Stmt, b: Stmt)
    ensures Lines(Seq(a, b)) == Lines(a) + Lines(b)
  {}

  lemma DefineLines(a: Stmt, n: Name, g: GExpr, rest: Stmt)
    ensures Lines(Seq(Seq(a, Define(n, g)), rest)) == Lines(a) + [LDefine(n, g)] + Lines(rest)
  {
    SeqLines(a, Define(n, g));
  }

  lemma BlockLines(a: Stmt, b: Stmt)
    ensures Lines(Block(Seq(a, b))) == [LOpen] + Lines(a) + Lines(b) + [LClose]
  {}

  lemma LastLines(a: Stmt, n: Name, g: GExpr, l: Name)
    ensures Lines(Seq(a, Seq(Assign(n, g), Break(l)))) == Lines(a) + [LAssign(n, g), LBreak(l)]
  {
    SeqLines(a, Seq(Assign(n, g), Break(l)));
  }

  lemma RecurLines(a: Stmt, b: Stmt, l: Name)
    ensures Lines(Seq(a, Seq(b, Continue(l)))) == Lines(a) + Lines(b) + [LContinue(l)]
  {
    SeqLines(b, Continue(l));
  }

  lemma CallLines(a: Stmt, guard: Stmt, r: Name, ok: Name, h: Name, args: seq<GExpr>)
    ensures Lines(Seq(a, Seq(guard, Seq(CallHelper(r, ok, h, args), If1(GNot(GVar(ok)), ReturnFail)))))
         == Lines(a) + Lines(guard) + [LCall(r, ok, h, args), LIf(GNot(GVar(ok))), LReturnFail, LClose]
  {
    var call, test := CallHelper(r, ok, h, args), If1(GNot(GVar(ok)), ReturnFail);
    assert Lines(test) == [LIf(GNot(GVar(ok))), LReturnFail, LClose];
    SeqLines(call, test);
    SeqLines(guard, Seq(call, test));
  }

  lemma FailLines(g: GExpr)
    ensures Lines(If1(g, ReturnFail)) == [LIf(g), LReturnFail, LClose]
  {}

  lemma IfText(c: Context, e: Expr, locals: Locals, n: Name, before: seq<Line>)
    requires e.If?
    ensures var q := Emit(c, e.test, locals, n + 1);
            var a := Emit(c, e.thn, locals, q.next);
            var b := Emit(c, e.els, locals, a.next);
            var t := TypeOr(ExprType(c.p, c.self, e, TypesOf(locals)));
            before + Lines(Emit(c, e, locals, n).code)
            == before + [LVar(n, t)] + Lines(q.code) + [LIf(q.value)] + Lines(a.code) + [LAssign(n, a.value)] + [LElse]
             + Lines(b.code) + [LAssign(n, b.value)] + [LClose]
    ensures Emit(c, e, locals, n).value == GVar(n)
            && Emit(c, e, locals, n).next
                == Emit(c, e.els, locals, Emit(c, e.thn, locals, Emit(c, e.test, locals, n + 1).next).next).next
  {
    hide Lines, ExprType, TypesOf;
    var q := Emit(c, e.test, locals, n + 1);
    var a := Emit(c, e.thn, locals, q.next);
    var b := Emit(c, e.els, locals, a.next);
    var t := TypeOr(ExprType(c.p, c.self, e, TypesOf(locals)));
    IfLines(n, t, q.code, q.value, a.code, a.value, b.code, b.value);
    Regroup(before, [LVar(n, t)], Lines(q.code), LIf(q.value), Lines(a.code), LAssign(n, a.value), LElse,
      Lines(b.code), LAssign(n, b.value));
  }

  lemma Regroup(before: seq<Line>, x: seq<Line>, q: seq<Line>, y: Line, a: seq<Line>, z: Line, u: Line,
          b: seq<Line>, v: Line)
    ensures before + (x + q + [y] + a + [z, u] + b + [v, LClose]) == before + x + q + [y] + a + [z] + [u] + b
            + [v] + [LClose]
  {
    assert before + (x + q + [y] + a) == before + x + q + [y] + a;
  }

  lemma LetText(c: Context, e: Expr, locals: Locals, n: Name)
    requires e.Let?
    ensures var b := EmitBindings(c, e.bindings, locals, n + 1);
            var a := Emit(c, e.body, b.locals, b.next);
            var t := TypeOr(ExprType(c.p, c.self, e, TypesOf(locals)));
            Lines(Emit(c, e, locals, n).code) == [LVar(n, t), LOpen] + Lines(b.code) + Lines(a.code)
              + [LAssign(n, a.value), LClose]
  {
    hide Lines, ExprType, TypesOf, EmitBindings;
    var b := EmitBindings(c, e.bindings, locals, n + 1);
    var a := Emit(c, e.body, b.locals, b.next);
    LetLines(n, TypeOr(ExprType(c.p, c.self, e, TypesOf(locals))), b.code, a.code, a.value);
  }

  lemma LoopText(c: Context, e: Expr, locals: Locals, n: Name, before: seq<Line>)
    requires e.Loop?
    ensures var b := EmitBindings(c, e.bindings, locals, n + 2);
            var tail := EmitTail(c, e.body, b.locals, b.names, n, n + 1, b.next);
            before + Lines(Emit(c, e, locals, n).code)
            == before + [LVar(n, IntT)] + [LOpen] + Lines(b.code) + [LLabel(n + 1)] + [LFor]
             + (if e.guarded then Lines(Int32Guards(b.names)) else []) + Lines(tail.code) + [LClose] + [LClose]
  {
    hide EmitBindings, EmitTail, Int32Guards, Lines;
    SkipLines();
    var b := EmitBindings(c, e.bindings, locals, n + 2);
    var tail := EmitTail(c, e.body, b.locals, b.names, n, n + 1, b.next);
    var guards := if e.guarded then Int32Guards(b.names) else Skip;
    LoopLines(n, n + 1, b.code, guards, tail.code);
    RegroupLoop(before, LVar(n, IntT), Lines(b.code), LLabel(n + 1), Lines(guards), Lines(tail.code));
  }

  lemma RegroupLoop(before: seq<Line>, x: Line, a: seq<Line>, y: Line, g: seq<Line>, b: seq<Line>)
    ensures before + ([x, LOpen] + a + [y, LFor] + g + b + [LClose, LClose])
         == before + [x] + [LOpen] + a + [y] + [LFor] + g + b + [LClose] + [LClose]
  {
    assert before + ([x, LOpen] + a + [y, LFor]) == before + [x] + [LOpen] + a + [y] + [LFor];
  }

  lemma BindingText(c: Context, bs: Bindings, locals: Locals, n: Name, before: seq<Line>)
    requires bs.Binding?
    ensures var a := Emit(c, bs.init, locals, n);
            var local := TypedLocal(a.next, TypeOr(ExprType(c.p, c.self, bs.init, TypesOf(locals))));
            var b := EmitBindings(c, bs.rest, locals[bs.sym := local], a.next + 1);
            var all := EmitBindings(c, bs, locals, n);
            && before + Lines(all.code) == before + Lines(a.code) + [LDefine(a.next, a.value)] + Lines(b.code)
            && all.locals == b.locals && all.next == b.next && all.names == [a.next] + b.names
  {
    hide Emit, ExprType, TypesOf, Lines;
    var a := Emit(c, bs.init, locals, n);
    var local := TypedLocal(a.next, TypeOr(ExprType(c.p, c.self, bs.init, TypesOf(locals))));
    DefineLines(a.code, a.next, a.value, EmitBindings(c, bs.rest, locals[bs.sym := local], a.next + 1).code);
  }

  lemma NextText(c: Context, es: Exprs, locals: Locals, n: Name, before: seq<Line>)
    requires es.Exprs?
    ensures var a := Emit(c, es.head, locals, n);
            var b := EmitNext(c, es.tail, locals, a.next + 1);
            var all := EmitNext(c, es, locals, n);
            && before + Lines(all.code) == before + Lines(a.code) + [LDefine(a.next, a.value)] + Lines(b.code)
            && all.next == b.next && all.names == [a.next] + b.names
  {
    hide Emit, Lines;
    var a := Emit(c, es.head, locals, n);
    DefineLines(a.code, a.next, a.value, EmitNext(c, es.tail, locals, a.next + 1).code);
  }

  lemma ArgText(c: Context, es: Exprs, locals: Locals, n: Name, before: seq<Line>)
    requires es.Exprs?
    ensures var a := Emit(c, es.head, locals, n);
            var b := EmitArgs(c, es.tail, locals, a.next);
            var all := EmitArgs(c, es, locals, n);
            before + Lines(all.code) == before + Lines(a.code) + Lines(b.code) && all.next == b.next
              && all.values == [a.value] + b.values
  {
    hide Emit, Lines;
    var a := Emit(c, es.head, locals, n);
    SeqLines(a.code, EmitArgs(c, es.tail, locals, a.next).code);
  }

  lemma InvokeText(c: Context, f: FnId, args: Exprs, locals: Locals, n: Name)
    ensures var a := EmitArgs(c, args, locals, n);
            var all := Emit(c, Call(f, args), locals, n);
            && Lines(all.code) == Lines(a.code)
               + (if f != c.self && f in c.p.fns && c.p.fns[f].guarded
                 then [LIf(GStale(f)), LReturnFail, LClose] else [])
               + [LCall(a.next, a.next + 1, HelperName(c, f), a.values), LIf(GNot(GVar(a.next + 1))), LReturnFail,
                 LClose]
            && all.value == GVar(a.next) && all.next == a.next + 2
  {
    hide EmitArgs;
    var a := EmitArgs(c, args, locals, n);
    FailLines(GStale(f));
    CallLines(a.code, CalleeGuard(c, f), a.next, a.next + 1, HelperName(c, f), a.values);
  }

  lemma GuardText(names: seq<Name>)
    requires names != []
    ensures var n := GVar(names[0]);
            Lines(Int32Guards(names))
            == [LIf(GOr(GBinary(Less, n, GInt(-2147483647)), GBinary(Greater, n, GInt(2147483647)))), LReturnFail,
              LClose]
             + Lines(Int32Guards(names[1..]))
  {
    hide Lines;
    var n := GVar(names[0]);
    var test := GOr(GBinary(Less, n, GInt(-2147483647)), GBinary(Greater, n, GInt(2147483647)));
    FailLines(test);
    SeqLines(If1(test, ReturnFail), Int32Guards(names[1..]));
  }

  class Generator {
    var counter: nat
    var lines: seq<Line>

    constructor (start: nat)
      ensures counter == start && lines == []
    {
      counter := start;
      lines := [];
    }

    method AllocateTempVar() returns (n: Name)
      modifies this`counter
      ensures n == old(counter) && counter == old(counter) + 1
    {
      n := counter;
      counter := counter + 1;
    }

    method Writef(l: Line)
      modifies this`lines
      ensures lines == old(lines) + [l]
    {
      lines := lines + [l];
    }

    method EmitExpr(c: Context, e: Expr, locals: Locals) returns (g: GExpr)
      modifies this
      ensures var r := Emit(c, e, locals, old(counter));
              g == r.value && counter == r.next && lines == old(lines) + Lines(r.code)
      decreases e, 3
    {
      hide Lines, ExprType, EmitArgs, EmitBindings, UnaryCode, BinaryCode;
      SkipLines();
      match e
      case IntLit(i) => g := GInt(i);
      case BoolLit(b) => g := GBool(b);
      case Local(s) => g := GVar(if s in locals then locals[s].name else 0);
      case Do(ret) => if ret.Do? { g := GInt(0); } else { g := EmitExpr(c, ret, locals); }
      case Let(_, _) => g := EmitLet(c, e, locals);
      case Loop(_, _, _, _) => g := EmitLoop(c, e, locals);
      case If(_, _, _) => g := EmitIf(c, e, locals);
      case Host1(op, arg) =>
        var a := EmitExpr(c, arg, locals);
        g := UnaryCode(op, a);
      case Host2(op, left, right) =>
        var a := EmitExpr(c, left, locals);
        var b := EmitExpr(c, right, locals);
        g := BinaryCode(op, a, b);
        PairLines(c, left, right, locals, old(counter));
      case CoreEquals(left, right) =>
        var a := EmitExpr(c, left, locals);
        var b := EmitExpr(c, right, locals);
        g := GBinary(Equal, a, b);
        PairLines(c, left, right, locals, old(counter));
      case Call(f, args) => g := EmitInvoke(c, f, args, locals);
      case Recur(_, _) => g := GInt(0);
    }

    method EmitIf(c: Context, e: Expr, locals: Locals) returns (g: GExpr)
      requires e.If?
      modifies this
      ensures var r := Emit(c, e, locals, old(counter));
              g == r.value && counter == r.next && lines == old(lines) + Lines(r.code)
      decreases e, 2
    {
      hide Lines, ExprType, TypesOf, Emit;
      var typ := ExprType(c.p, c.self, e, TypesOf(locals));
      var result := AllocateTempVar();
      Writef(LVar(result, TypeOr(typ)));
      var test := EmitExpr(c, e.test, locals);
      Writef(LIf(test));
      var thn := EmitExpr(c, e.thn, locals);
      Writef(LAssign(result, thn));
      Writef(LElse);
      var els := EmitExpr(c, e.els, locals);
      Writef(LAssign(result, els));
      Writef(LClose);
      g := GVar(result);
      IfText(c, e, locals, old(counter), old(lines));
    }

    method EmitLet(c: Context, e: Expr, locals: Locals) returns (g: GExpr)
      requires e.Let?
      modifies this
      ensures var r := Emit(c, e, locals, old(counter));
              g == r.value && counter == r.next && lines == old(lines) + Lines(r.code)
      decreases e, 2
    {
      hide Lines, ExprType, TypesOf, EmitBindings;
      var typ := ExprType(c.p, c.self, e, TypesOf(locals));
      var result := AllocateTempVar();
      Writef(LVar(result, TypeOr(typ)));
      Writef(LOpen);
      var nested, _ := EmitBindingList(c, e.bindings, locals);
      var body := EmitExpr(c, e.body, nested);
      Writef(LAssign(result, body));
      Writef(LClose);
      g := GVar(result);
      LetText(c, e, locals, old(counter));
    }

    /** `name := value` for each binding in turn; `nested` is the clone of `locals` that grows with them. */
    method EmitBindingList(c: Context, bs: Bindings, locals: Locals) returns (nested: Locals, names: seq<Name>)
      modifies this
      ensures var b := EmitBindings(c, bs, locals, old(counter));
              nested == b.locals && names == b.names && counter == b.next && lines == old(lines) + Lines(b.code)
      decreases bs, 4
    {
      hide Lines, Emit, ExprType, TypesOf;
      SkipLines();
      var rest := bs;
      nested, names := locals, [];
      while rest.Binding?
        invariant rest == bs || (bs decreases to rest)
        invariant var all := EmitBindings(c, bs, locals, old(counter));
                  var todo := EmitBindings(c, rest, nested, counter);
                  && all.locals == todo.locals
                  && all.next == todo.next
                  && all.names == names + todo.names
                  && old(lines) + Lines(all.code) == lines + Lines(todo.code)
        decreases rest
      {
        BindingText(c, rest, nested, counter, lines);
        var typ := ExprType(c.p, c.self, rest.init, TypesOf(nested));
        var value := EmitExpr(c, rest.init, nested);
        var name := AllocateTempVar();
        Writef(LDefine(name, value));
        nested := nested[rest.sym := TypedLocal(name, TypeOr(typ))];
        Assoc(names, name, EmitBindings(c, rest.rest, nested, counter).names);
        names := names + [name];
        rest := rest.rest;
      }
    }

    method EmitLoop(c: Context, e: Expr, locals: Locals) returns (g: GExpr)
      requires e.Loop?
      modifies this
      ensures var r := Emit(c, e, locals, old(counter));
              g == r.value && counter == r.next && lines == old(lines) + Lines(r.code)
      decreases e, 2
    {
      hide Lines, EmitBindings, EmitTail, Int32Guards;
      var result := AllocateTempVar();
      var lbl := AllocateTempVar();
      Writef(LVar(result, IntT));
      Writef(LOpen);
      var nested, names := EmitBindingList(c, e.bindings, locals);
      Writef(LLabel(lbl));
      Writef(LFor);
      if e.guarded {
        WriteInt32Guards(names);
      }
      EmitLoopTail(c, e.body, nested, names, result, lbl);
      Writef(LClose);
      Writef(LClose);
      g := GVar(result);
      LoopText(c, e, locals, old(counter), old(lines));
    }

    method WriteInt32Guards(names: seq<Name>)
      modifies this`lines
      ensures lines == old(lines) + Lines(Int32Guards(names))
    {
      var i := 0;
      while i < |names|
        invariant 0 <= i <= |names|
        invariant old(lines) + Lines(Int32Guards(names)) == lines + Lines(Int32Guards(names[i..]))
      {
        var n := GVar(names[i]);
        assert names[i..][0] == names[i] && names[i..][1..] == names[i + 1..];
        GuardText(names[i..]);
        Writef(LIf(GOr(GBinary(Less, n, GInt(-2147483647)), GBinary(Greater, n, GInt(2147483647)))));
        Writef(LReturnFail);
        Writef(LClose);
        i := i + 1;
      }
    }

    method EmitLoopTail(c: Context, e: Expr, locals: Locals, loopNames: seq<Name>, result: Name, lbl: Name)
      modifies this
      ensures var r := EmitTail(c, e, locals, loopNames, result, lbl, old(counter));
              counter == r.next && lines == old(lines) + Lines(r.code)
      decreases e, 5
    {
      hide Lines, Emit, EmitBindings, EmitNext, AssignAll, EmitLast;
      match e
      case Do(ret) => if ret.Do? { EmitBreak(c, e, locals, result, lbl); }
          else { EmitLoopTail(c, ret, locals, loopNames, result, lbl); }
      case Recur(_, args) =>
        var next := EmitNextValues(c, args, locals);
        WriteAssignments(loopNames, next);
        Writef(LContinue(lbl));
        RecurLines(EmitNext(c, args, locals, old(counter)).code, AssignAll(loopNames, next), lbl);
      case If(test, thn, els) => EmitIfTail(c, e, locals, loopNames, result, lbl);
      case Let(bs, body) =>
        Writef(LOpen);
        var nested, _ := EmitBindingList(c, bs, locals);
        EmitLoopTail(c, body, nested, loopNames, result, lbl);
        Writef(LClose);
        ghost var b := EmitBindings(c, bs, locals, old(counter));
        BlockLines(b.code, EmitTail(c, body, nested, loopNames, result, lbl, b.next).code);
      case _ => EmitBreak(c, e, locals, result, lbl);
    }

    /** The `if` case of `emitLoopTail`: each branch is itself in tail position. */
    method EmitIfTail(c: Context, e: Expr, locals: Locals, loopNames: seq<Name>, result: Name, lbl: Name)
      requires e.If?
      modifies this
      ensures var r := EmitTail(c, e, locals, loopNames, result, lbl, old(counter));
              counter == r.next && lines == old(lines) + Lines(r.code)
      decreases e, 4
    {
      hide Lines, Emit, EmitBindings, EmitNext, AssignAll, EmitLast;
      var t := EmitExpr(c, e.test, locals);
      Writef(LIf(t));
      EmitLoopTail(c, e.thn, locals, loopNames, result, lbl);
      Writef(LElse);
      EmitLoopTail(c, e.els, locals, loopNames, result, lbl);
      Writef(LClose);
      ghost var q := Emit(c, e.test, locals, old(counter));
      ghost var a := EmitTail(c, e.thn, locals, loopNames, result, lbl, q.next);
      If2Lines(q.code, t, a.code, EmitTail(c, e.els, locals, loopNames, result, lbl, a.next).code);
    }

    method EmitBreak(c: Context, e: Expr, locals: Locals, result: Name, lbl: Name)
      modifies this
      ensures var r := EmitLast(c, e, locals, result, lbl, old(counter));
              counter == r.next && lines == old(lines) + Lines(r.code)
      decreases e, 4
    {
      hide Lines, Emit;
      SkipLines();
      var value := EmitExpr(c, e, locals);
      Writef(LAssign(result, value));
      Writef(LBreak(lbl));
      LastLines(Emit(c, e, locals, old(counter)).code, result, value, lbl);
    }

    method EmitNextValues(c: Context, args: Exprs, locals: Locals) returns (next: seq<Name>)
      modifies this
      ensures var b := EmitNext(c, args, locals, old(counter));
              next == b.names && counter == b.next && lines == old(lines) + Lines(b.code)
      decreases args, 4
    {
      hide Lines, Emit;
      SkipLines();
      var rest := args;
      next := [];
      while rest.Exprs?
        invariant rest == args || (args decreases to rest)
        invariant var all := EmitNext(c, args, locals, old(counter));
                  var todo := EmitNext(c, rest, locals, counter);
                  && all.next == todo.next
                  && all.names == next + todo.names
                  && old(lines) + Lines(all.code) == lines + Lines(todo.code)
        decreases rest
      {
        NextText(c, rest, locals, counter, lines);
        var value := EmitExpr(c, rest.head, locals);
        var name := AllocateTempVar();
        Writef(LDefine(name, value));
        Assoc(next, name, EmitNext(c, rest.tail, locals, counter).names);
        next := next + [name];
        rest := rest.tail;
      }
    }

    method WriteAssignments(names: seq<Name>, values: seq<Name>)
      modifies this`lines
      ensures lines == old(lines) + Lines(AssignAll(names, values))
    {
      var i := 0;
      while i < |names| && i < |values|
        invariant 0 <= i <= |names| && i <= |values|
        invariant old(lines) + Lines(AssignAll(names, values)) == lines + Lines(AssignAll(names[i..], values[i..]))
      {
        assert names[i..][1..] == names[i + 1..] && values[i..][1..] == values[i + 1..];
        SeqLines(Assign(names[i], GVar(values[i])), AssignAll(names[i + 1..], values[i + 1..]));
        Writef(LAssign(names[i], GVar(values[i])));
        i := i + 1;
      }
    }

    method EmitArgList(c: Context, args: Exprs, locals: Locals) returns (values: seq<GExpr>)
      modifies this
      ensures var a := EmitArgs(c, args, locals, old(counter));
              values == a.values && counter == a.next && lines == old(lines) + Lines(a.code)
      decreases args, 4
    {
      hide Lines, Emit;
      SkipLines();
      var rest := args;
      values := [];
      while rest.Exprs?
        invariant rest == args || (args decreases to rest)
        invariant var all := EmitArgs(c, args, locals, old(counter));
                  var todo := EmitArgs(c, rest, locals, counter);
                  && all.next == todo.next
                  && all.values == values + todo.values
                  && old(lines) + Lines(all.code) == lines + Lines(todo.code)
        decreases rest
      {
        ArgText(c, rest, locals, counter, lines);
        var value := EmitExpr(c, rest.head, locals);
        Assoc(values, value, EmitArgs(c, rest.tail, locals, counter).values);
        values := values + [value];
        rest := rest.tail;
      }
    }

    method EmitInvoke(c: Context, f: FnId, args: Exprs, locals: Locals) returns (g: GExpr)
      modifies this
      ensures var r := Emit(c, Call(f, args), locals, old(counter));
              g == r.value && counter == r.next && lines == old(lines) + Lines(r.code)
      decreases args, 5
    {
      hide Lines, EmitArgs;
      var values := EmitArgList(c, args, locals);
      InvokeText(c, f, args, locals, old(counter));
      if f != c.self && f in c.p.fns && c.p.fns[f].guarded {
        Writef(LIf(GStale(f)));
        Writef(LReturnFail);
        Writef(LClose);
      }
      var result := AllocateTempVar();
      var ok := AllocateTempVar();
      Writef(LCall(result, ok, HelperName(c, f), values));
      Writef(LIf(GNot(GVar(ok))));
      Writef(LReturnFail);
      Writef(LClose);
      g := GVar(result);
    }

    /** The helper of one function: its own variable, its parameters, the guards, the callees, the body. */
    method GenerateHelper(p: Program, f: FnId) returns (helper: Name, params: seq<Name>, result: GExpr)
      requires f in p.fns
      modifies this
      ensures var h := EmitHelper(p, f, old(counter));
              helper == h.name && params == h.params && result == h.result && lines == old(lines) + Lines(h.body)
    {
      hide Lines, Emit, ExprType, UsesSelf, Int32Guards, CalleeCode, CalleeNames, ParamLocals;
      var fn := p.fns[f];
      helper := AllocateTempVar();
      params := [];
      while |params| < |fn.params|
        invariant |params| <= |fn.params|
        invariant params == Fresh(helper + 1, |params|) && counter == helper + 1 + |params|
        invariant lines == old(lines)
      {
        var param := AllocateTempVar();
        params := params + [param];
      }
      SkipLines();
      FailLines(GStale(f));
      if fn.int32Params {
        WriteInt32Guards(params);
      }
      if UsesSelf(fn.body, f) && fn.guarded {
        Writef(LIf(GStale(f)));
        Writef(LReturnFail);
        Writef(LClose);
      }
      var callees := WriteCallees(fn.callees);
      result := EmitExpr(Context(p, f, helper, callees), fn.body, ParamLocals(fn.params, params));
      HelperText(p, f, helper, old(lines));
    }

    /** `local := callee` for each callee, and where each one went. */
    method WriteCallees(callees: seq<FnId>) returns (names: map<FnId, Name>)
      modifies this
      ensures names == CalleeNames(callees, old(counter)) && counter == old(counter) + |callees|
      ensures lines == old(lines) + Lines(CalleeCode(callees, old(counter)))
      decreases |callees|
    {
      if callees == [] {
        names := map[];
      } else {
        var local := AllocateTempVar();
        Writef(LDefine(local, GFnVar(callees[0])));
        SeqLines(Define(local, GFnVar(callees[0])), CalleeCode(callees[1..], local + 1));
        var rest := WriteCallees(callees[1..]);
        names := rest[callees[0] := local];
      }
    }
  }

  lemma HelperText(p: Program, f: FnId, n: Name, before: seq<Line>)
    requires f in p.fns
    ensures var fn := p.fns[f];
            var h := EmitHelper(p, f, n);
            var k := |fn.params|;
            var a := Emit(HelperContext(p, f, n), fn.body, ParamLocals(fn.params, h.params), n + 1 + k + |fn.callees|);
            before + Lines(h.body)
            == before + (if fn.int32Params then Lines(Int32Guards(h.params)) else [])
             + (if UsesSelf(fn.body, f) && fn.guarded then [LIf(GStale(f)), LReturnFail, LClose] else [])
             + Lines(CalleeCode(fn.callees, n + 1 + k)) + Lines(a.code)
  {
    hide Lines, Emit, UsesSelf, Int32Guards, CalleeCode, ParamLocals, HelperContext;
    SkipLines();
    FailLines(GStale(f));
    var fn := p.fns[f];
    var h := EmitHelper(p, f, n);
    var callees := CalleeCode(fn.callees, n + 1 + |fn.params|);
    var a := Emit(HelperContext(p, f, n), fn.body, ParamLocals(fn.params, h.params), n + 1 + |fn.params|
        + |fn.callees|);
    var guards := if fn.int32Params then Int32Guards(h.params) else Skip;
    var selfGuard := if UsesSelf(fn.body, f) && fn.guarded then If1(GStale(f), ReturnFail) else Skip;
    SeqLines(callees, a.code);
    SeqLines(selfGuard, Seq(callees, a.code));
    SeqLines(guards, Seq(selfGuard, Seq(callees, a.code)));
  }
}
