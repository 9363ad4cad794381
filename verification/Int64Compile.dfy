/**
 Which helpers the Go compiler accepts (`pkg/runtime/codegen_int64.go`): exactly those of functions that are
 `Compilable`. The emitter takes no care of the condition, and functions fail it in each of three ways.
 */
module Int64Compile {
  import opened Objects
  import opened Int64Source
  import opened GoCode
  import opened Int64Emitter
  import opened GoRules
  import opened Int64Usage
  import Int64Bindings
  import Int64Constants
  import Int64Labels
  import Int64Scopes

  // ---- the parts of a helper ----

  function ParamNames(fn: Fn, n: Name): seq<Name> { Fresh(n + 1, |fn.params|) }

  /** The name of the first callee's variable, and the first name of the body. */
  function CalleeStart(fn: Fn, n: Name): Name { n + 1 + |fn.params| }

  function BodyStart(fn: Fn, n: Name): Name { CalleeStart(fn, n) + |fn.callees| }

  function CalleeVars(fn: Fn, n: Name): set<Name> { NameSet(Fresh(CalleeStart(fn, n), |fn.callees|)) }

  function NameSet(names: seq<Name>): set<Name> { set m | m in names }

  lemma FreshNames(n: Name, k: nat)
    ensures Between(NameSet(Fresh(n, k)), n, n + k) && forall i :: 0 <= i < k ==> Fresh(n, k)[i] in NameSet(Fresh(n, k))
  {}

  function Body(p: Program, f: FnId, n: Name): Emitted
    requires f in p.fns
  {
    var fn := p.fns[f];
    Emit(HelperContext(p, f, n), fn.body, ParamLocals(fn.params, ParamNames(fn, n)), BodyStart(fn, n))
  }

  lemma {:induction false} CalleeSets(callees: seq<FnId>, n: Name)
    ensures CodeUses(CalleeCode(callees, n)) == {} && CodeConstantsOk(CalleeCode(callees, n))
    ensures Declares(CalleeCode(callees, n)) == NameSet(Fresh(n, |callees|))
    ensures Int64Labels.Tidy(CalleeCode(callees, n))
  {
    if callees != [] {
      CalleeSets(callees[1..], n + 1);
      assert Uses(GFnVar(callees[0])) == {} && ConstantsOk(GFnVar(callees[0]));
      SeqSets(Define(n, GFnVar(callees[0])), CalleeCode(callees[1..], n + 1));
      assert Fresh(n, |callees|) == [n] + Fresh(n + 1, |callees| - 1);
      FreshNames(n + 1, |callees| - 1);
      Int64Labels.AtomTidy(Define(n, GFnVar(callees[0])));
      Int64Labels.SeqTidy(Define(n, GFnVar(callees[0])), CalleeCode(callees[1..], n + 1));
    }
  }

  /** A guard at the start of the helper: tests of the parameters' range or of the helper's own Var. */
  lemma HeadSets(guards: Stmt, selfGuard: Stmt, params: seq<Name>, f: FnId)
    requires guards == Skip || guards == Int32Guards(params)
    requires selfGuard == Skip || selfGuard == If1(GStale(f), ReturnFail)
    ensures Declares(guards) == {} && CodeUses(guards) <= NameSet(params) && CodeConstantsOk(guards)
    ensures Int64Labels.Tidy(guards)
    ensures Declares(selfGuard) == {} && CodeUses(selfGuard) == {} && CodeConstantsOk(selfGuard)
    ensures Int64Labels.Tidy(selfGuard)
  {
    GuardSets(params);
    Int64Constants.GuardConstants(params);
    Int64Labels.GuardsTidy(params);
    Int64Labels.AtomTidy(Skip);
    assert CodeUses(ReturnFail) == {} && Declares(ReturnFail) == {} && Uses(GStale(f)) == {} && ConstantsOk(GStale(f));
    assert Int64Labels.Tidy(ReturnFail);
  }

  lemma HelperSets(p: Program, f: FnId, n: Name)
    requires f in p.fns
    ensures var h, r := EmitHelper(p, f, n), Body(p, f, n);
            var callees := CalleeVars(p.fns[f], n);
            && h.result == r.value
            && Declares(h.body) == callees + Declares(r.code)
            && CodeUses(r.code) <= CodeUses(h.body) <= NameSet(ParamNames(p.fns[f], n)) + CodeUses(r.code)
            && (CodeConstantsOk(h.body) <==> CodeConstantsOk(r.code))
            && ((Int64Labels.Tidy(r.code) && callees !! Declares(r.code)) ==> Int64Labels.Tidy(h.body))
  {
    hide Emit, UsesSelf, Int32Guards, Int64Labels.Tidy;
    var fn := p.fns[f];
    var r := Body(p, f, n);
    var params := ParamNames(fn, n);
    var guards := if fn.int32Params then Int32Guards(params) else Skip;
    var selfGuard := if UsesSelf(fn.body, f) && fn.guarded then If1(GStale(f), ReturnFail) else Skip;
    var callees := CalleeCode(fn.callees, CalleeStart(fn, n));
    HeadSets(guards, selfGuard, params, f);
    CalleeSets(fn.callees, CalleeStart(fn, n));
    HeadOf(guards, selfGuard, callees, r.code);
    assert EmitHelper(p, f, n).body == Seq(guards, Seq(selfGuard, Seq(callees, r.code)));
  }

  ghost predicate AllTidy(guards: Stmt, selfGuard: Stmt, callees: Stmt, body: Stmt) {
    && Int64Labels.Tidy(guards) && Int64Labels.Tidy(selfGuard) && Int64Labels.Tidy(callees) && Int64Labels.Tidy(body)
    && Declares(callees) !! Declares(body)
  }

  lemma HeadOf(guards: Stmt, selfGuard: Stmt, callees: Stmt, body: Stmt)
    requires Declares(guards) == Declares(selfGuard) == {}
    ensures var h := Seq(guards, Seq(selfGuard, Seq(callees, body)));
            && Declares(h) == Declares(callees) + Declares(body)
            && CodeUses(h) == CodeUses(guards) + CodeUses(selfGuard) + CodeUses(callees) + CodeUses(body)
            && (CodeConstantsOk(h) <==> CodeConstantsOk(guards) && CodeConstantsOk(selfGuard)
                                        && CodeConstantsOk(callees) && CodeConstantsOk(body))
            && (AllTidy(guards, selfGuard, callees, body) ==> Int64Labels.Tidy(h))
  {
    hide Int64Labels.Tidy;
    SeqSets(callees, body);
    SeqSets(selfGuard, Seq(callees, body));
    SeqSets(guards, Seq(selfGuard, Seq(callees, body)));
    if AllTidy(guards, selfGuard, callees, body) {
      Int64Labels.SeqTidy(callees, body);
      Int64Labels.SeqTidy(selfGuard, Seq(callees, body));
      Int64Labels.SeqTidy(guards, Seq(selfGuard, Seq(callees, body)));
    }
    assert CodeConstantsOk(Seq(callees, body)) <==> CodeConstantsOk(callees) && CodeConstantsOk(body);
    assert CodeConstantsOk(Seq(selfGuard, Seq(callees, body))) <==>
      CodeConstantsOk(selfGuard) && CodeConstantsOk(Seq(callees, body));
  }

  // ---- names in a helper ----

  /** A callee's variable is the first one that was made for it. */
  lemma {:induction false} CalleeNameIs(callees: seq<FnId>, n: Name, g: FnId, i: nat)
    requires i < |callees|
    ensures var names := CalleeNames(callees, n);
            && (g in names <==> g in callees) && (g in names ==> n <= names[g] < n + |callees|)
            && (g in names && names[g] == n + i <==> callees[i] == g && g !in callees[..i])
    decreases |callees|
  {
    var rest := callees[1..];
    assert callees == [callees[0]] + rest;
    if rest == [] {
    } else if i == 0 {
      CalleeNameIs(rest, n + 1, g, 0);
    } else {
      CalleeNameIs(rest, n + 1, g, i - 1);
      assert callees[..i] == [callees[0]] + rest[..i - 1];
    }
  }

  lemma {:induction false} ParamNameIs(locals: Locals, params: seq<Sym>, tls: seq<TypedLocal>, s: Sym, lo: Name,
          hi: Name)
    requires |params| == |tls| && forall i :: 0 <= i < |tls| ==> lo <= tls[i].name < hi
    requires s in locals ==> lo <= locals[s].name < hi
    ensures var all := Bind(locals, params, tls); s in all ==> lo <= all[s].name < hi
    decreases |params|
  {
    if params != [] { ParamNameIs(locals[params[0] := tls[0]], params[1..], tls[1..], s, lo, hi); }
  }

  lemma HelperVisible(p: Program, f: FnId, n: Name)
    requires f in p.fns
    ensures var fn := p.fns[f];
            Visible(HelperContext(p, f, n), ParamLocals(fn.params, ParamNames(fn, n)), BodyStart(fn, n))
  {
    var fn := p.fns[f];
    var c, locals := HelperContext(p, f, n), ParamLocals(fn.params, ParamNames(fn, n));
    forall s ensures LocalName(locals, s) < BodyStart(fn, n) { HelperLocal(p, f, n, s); }
    forall g ensures HelperName(c, g) < BodyStart(fn, n) {
      if g in fn.callees { CalleeNameIs(fn.callees, CalleeStart(fn, n), g, 0); }
      else { NoCallee(fn.callees, CalleeStart(fn, n), g); }
    }
  }

  lemma {:induction false} NoCallee(callees: seq<FnId>, n: Name, g: FnId)
    requires g !in callees
    ensures g !in CalleeNames(callees, n)
    decreases |callees|
  {
    if callees != [] { NoCallee(callees[1..], n + 1, g); }
  }

  lemma HelperLocal(p: Program, f: FnId, n: Name, s: Sym)
    requires f in p.fns
    ensures var fn := p.fns[f];
            var locals := ParamLocals(fn.params, ParamNames(fn, n));
            LocalName(locals, s) == 0 || n < LocalName(locals, s) < CalleeStart(fn, n)
  {
    var fn := p.fns[f];
    var names := ParamNames(fn, n);
    ParamNameIs(map[], fn.params, seq(|names|, i requires 0 <= i < |names| => TypedLocal(names[i], IntT)), s,
      n + 1, CalleeStart(fn, n));
  }

  /** The variable made for entry `i` of the callees stands for that callee, unless it is the function or repeats. */
  lemma CalleeStands(p: Program, f: FnId, n: Name, i: nat)
    requires f in p.fns && i < |p.fns[f].callees|
    ensures var fn := p.fns[f];
            var g := fn.callees[i];
            Stands(HelperContext(p, f, n), ParamLocals(fn.params, ParamNames(fn, n)), CalleeStart(fn, n) + i,
              if g != f && g !in fn.callees[..i] then Callee(g) else Nothing)
  {
    var fn := p.fns[f];
    var c, locals, m := HelperContext(p, f, n), ParamLocals(fn.params, ParamNames(fn, n)), CalleeStart(fn, n) + i;
    var g := fn.callees[i];
    var t := if g != f && g !in fn.callees[..i] then Callee(g) else Nothing;
    forall s ensures LocalName(locals, s) == m <==> t == Symbol(s) { HelperLocal(p, f, n, s); }
    forall k ensures HelperName(c, k) == m <==> t == Callee(k) {
      CalleeNameIs(fn.callees, CalleeStart(fn, n), k, i);
    }
  }

  // ---- the theorem ----

  lemma CalleeUsed(p: Program, f: FnId, n: Name, i: nat)
    requires f in p.fns && Formed(p.fns[f].body) && i < |p.fns[f].callees|
    ensures CalleeStart(p.fns[f], n) + i in Total(Body(p, f, n)) <==> NeededAt(p.fns[f], f, i)
  {
    hide Emit, Total, Mentions, HelperContext, ParamLocals, Visible, Stands;
    var fn := p.fns[f];
    var g := fn.callees[i];
    var t := if g != f && g !in fn.callees[..i] then Callee(g) else Nothing;
    HelperVisible(p, f, n);
    CalleeStands(p, f, n, i);
    Int64Bindings.NothingMentioned(fn.body);
    Int64Bindings.EmitMentions(HelperContext(p, f, n), fn.body, ParamLocals(fn.params, ParamNames(fn, n)),
      BodyStart(fn, n), CalleeStart(fn, n) + i, t);
  }

  predicate NeededAt(fn: Fn, self: FnId, i: nat)
    requires i < |fn.callees|
  {
    fn.callees[i] != self && fn.callees[i] !in fn.callees[..i] && Mentions(fn.body, Callee(fn.callees[i]))
  }

  lemma NeededEverywhere(fn: Fn, self: FnId)
    ensures CalleesNeeded(fn, self) <==> forall i :: 0 <= i < |fn.callees| ==> NeededAt(fn, self, i)
  {
    hide Mentions;
    if forall i :: 0 <= i < |fn.callees| ==> NeededAt(fn, self, i) {
      forall i, j | 0 <= i < j < |fn.callees|
        ensures fn.callees[i] != fn.callees[j]
      {
        assert NeededAt(fn, self, j) && fn.callees[i] == fn.callees[..j][i];
      }
      forall g | g in fn.callees
        ensures g != self && Mentions(fn.body, Callee(g))
      {
        var i :| 0 <= i < |fn.callees| && fn.callees[i] == g;
        assert NeededAt(fn, self, i);
      }
    }
    if CalleesNeeded(fn, self) {
      forall i | 0 <= i < |fn.callees|
        ensures NeededAt(fn, self, i)
      {
        assert fn.callees[i] in fn.callees;
        assert forall j :: 0 <= j < i ==> fn.callees[..i][j] == fn.callees[j] != fn.callees[i];
      }
    }
  }

  lemma CalleesUsed(p: Program, f: FnId, n: Name)
    requires f in p.fns && Formed(p.fns[f].body)
    ensures CalleeVars(p.fns[f], n) <= Total(Body(p, f, n)) <==> CalleesNeeded(p.fns[f], f)
  {
    hide Body, Total, Mentions, Formed, CalleesNeeded;
    var fn := p.fns[f];
    var vars := Fresh(CalleeStart(fn, n), |fn.callees|);
    forall i | 0 <= i < |fn.callees| ensures vars[i] in Total(Body(p, f, n)) <==> NeededAt(fn, f, i) {
      CalleeUsed(p, f, n, i);
    }
    NeededEverywhere(fn, f);
  }

  /** What has to be used in a helper: the callees' variables, and what the body declares. */
  lemma HelperUsed(p: Program, f: FnId, n: Name)
    requires f in p.fns && Formed(p.fns[f].body)
    ensures var h := EmitHelper(p, f, n);
            Declares(h.body) <= CodeUses(h.body) + Uses(h.result) <==>
            AllUsed(p.fns[f].body) && CalleesNeeded(p.fns[f], f)
  {
    hide EmitHelper, Emit, Mentions, AllUsed, CalleesNeeded, CodeUses, Uses, Declares, HelperContext, ParamLocals,
      Visible;
    var fn := p.fns[f];
    var r, h := Body(p, f, n), EmitHelper(p, f, n);
    HelperSets(p, f, n);
    HelperVisible(p, f, n);
    var c, locals := HelperContext(p, f, n), ParamLocals(fn.params, ParamNames(fn, n));
    Int64Bindings.EmitUsed(c, fn.body, locals, BodyStart(fn, n));
    EmitBounds(c, fn.body, locals, BodyStart(fn, n));
    CalleesUsed(p, f, n);
    FreshNames(CalleeStart(fn, n), |fn.callees|);
    FreshNames(n + 1, |fn.params|);
    UsedParts(CalleeVars(fn, n), Declares(r.code), NameSet(ParamNames(fn, n)),
      CodeUses(h.body), CodeUses(r.code), Uses(h.result), CalleeStart(fn, n), BodyStart(fn, n), r.next);
  }

  lemma UsedParts(callees: set<Name>, body: set<Name>, params: set<Name>, uses: set<Name>, own: set<Name>,
          result: set<Name>, lo: Name, mid: Name, hi: Name)
    requires lo <= mid && Between(callees, lo, mid) && Between(body, mid, hi) && Between(params, 0, lo)
    requires own <= uses <= params + own
    ensures callees + body <= uses + result <==> callees <= own + result && body <= own + result
  {
    if callees + body <= uses + result {
      forall m | m in callees ensures m in own + result { assert m in callees + body; }
      forall m | m in body ensures m in own + result { assert m in callees + body; }
    }
  }

  /** The Go compiler accepts a generated helper exactly if its function is `Compilable`. */
  lemma HelperCompiles(p: Program, f: FnId, n: Name)
    requires WellTyped(p) && f in p.fns
    ensures Compiles(EmitHelper(p, f, n)) <==> Compilable(p.fns[f], f)
    ensures DeclaredOnce(EmitHelper(p, f, n).body)
  {
    hide EmitHelper, Emit, Int64Scopes.WellScoped, HelperContext, ParamLocals, Visible, LiteralsOk, AllUsed,
      CalleesNeeded, CodeConstantsOk, ConstantsOk, Declares, CodeUses, Uses, ExprType, DeclaredOnce, Labels, Jumps;
    var fn := p.fns[f];
    var c, locals := HelperContext(p, f, n), ParamLocals(fn.params, ParamNames(fn, n));
    TypedIsFormed(p, f, fn.body, ParamTypes(fn.params));
    Int64Scopes.HelperIsWellScoped(p, f, n);
    HelperSets(p, f, n);
    HelperVisible(p, f, n);
    Int64Constants.EmitsConstants(c, fn.body, locals, BodyStart(fn, n));
    HelperUsed(p, f, n);
    Int64Labels.EmitTidy(c, fn.body, locals, BodyStart(fn, n));
    EmitBounds(c, fn.body, locals, BodyStart(fn, n));
    FreshNames(CalleeStart(fn, n), |fn.callees|);
    Int64Bindings.BetweenApart(Declares(Body(p, f, n).code), CalleeVars(fn, n), BodyStart(fn, n), Body(p, f, n).next);
  }

  // ---- each way of failing ----

  function Alone(params: seq<Sym>, body: Expr): Program {
    Program(map[0 := Fn(params, body, false, false, [])], _ => true, (_, _) => None)
  }

  /** `(fn [x] (quot x 0))`: a constant zero divisor. */
  lemma ZeroDivisorRejected(n: Name)
    ensures var p := Alone([0], Host2(Quotient, Local(0), IntLit(0)));
            WellTyped(p) && !Compiles(EmitHelper(p, 0, n))
  {
    var p := Alone([0], Host2(Quotient, Local(0), IntLit(0)));
    assert Literal(IntLit(0)) == Some(0);
    HelperCompiles(p, 0, n);
  }

  /** `(fn [] (unchecked-inc 9223372036854775807))`: a constant that overflows. */
  lemma ConstantOverflowRejected(n: Name)
    ensures var p := Alone([], Host1(UncheckedInc, IntLit(9223372036854775807)));
            WellTyped(p) && !Compiles(EmitHelper(p, 0, n))
  {
    var p := Alone([], Host1(UncheckedInc, IntLit(9223372036854775807)));
    assert Literal(IntLit(9223372036854775807)) == Some(9223372036854775807);
    HelperCompiles(p, 0, n);
  }

  /** `(fn [x] (let [a x] 5))`: a variable that is never used. */
  lemma UnusedBindingRejected(n: Name)
    ensures var p := Alone([0], Let(Binding(1, Local(0), NoBindings), IntLit(5)));
            WellTyped(p) && !Compiles(EmitHelper(p, 0, n))
  {
    var p := Alone([0], Let(Binding(1, Local(0), NoBindings), IntLit(5)));
    assert !Mentions(IntLit(5), Symbol(1));
    HelperCompiles(p, 0, n);
  }
}
