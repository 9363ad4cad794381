/**
 Syntax-quote (`pkg/reader/reader.go`): the code that a template expands to, and the proof that
 evaluating this code rebuilds the template. Forms and run-time data are the same type.
 */
module SyntaxQuote {
  import opened Objects

  datatype Symbol = Symbol(ns: string, name: string)

  /** `Self` is a keyword, character or string, `Other` a number, boolean or any object that is only quoted. */
  datatype Form =
    | Null
    | Self(text: string)
    | Other(id: int)
    | Sym(sym: Symbol)
    | List(items: seq<Form>)
    | Vector(elements: seq<Form>)
    | Map(keyvals: seq<Form>)

  function CoreSym(name: string): Form { Sym(Symbol("clojure.core", name)) }

  const QUOTE := Sym(Symbol("", "quote"))
  const UNQUOTE := CoreSym("unquote")
  const SPLICE := CoreSym("splice-unquote")
  const LIST := CoreSym("list")
  const SEQ := CoreSym("seq")
  const CONCAT := CoreSym("concat")
  const APPLY := CoreSym("apply")
  const VECTOR := CoreSym("vector")
  const HASH_MAP := CoreSym("hash-map")

  /** The reader's table of special forms, and how it qualifies a symbol that is neither special nor a gensym. */
  datatype Quoter = Quoter(special: Symbol -> bool, resolve: Symbol -> Symbol)

  // ---- generated symbols ----

  type Names = map<string, Symbol>

  predicate IsGensym(s: Symbol) { s.ns == "" && |s.name| > 0 && s.name[|s.name| - 1] == '#' }

  function Digit(d: nat): char
    requires d < 10
  { "0123456789"[d] }

  function Itoa(n: nat): string { if n < 10 then [Digit(n)] else Itoa(n / 10) + [Digit(n % 10)] }

  function GeneratedName(name: string, count: nat): string
    requires |name| > 0
  {
    name[..|name| - 1] + "__" + Itoa(count) + "__auto__"
  }

  /** The symbol to quote, and the map of renamed symbols afterwards. */
  function Rename(q: Quoter, names: Names, s: Symbol): (r: (Symbol, Names))
    ensures forall k :: k in names ==> k in r.1 && r.1[k] == names[k]
  {
    if q.special(s) then (s, names)
    else if IsGensym(s) then
      if s.name in names then (names[s.name], names)
      else
        var generated := Symbol("", GeneratedName(s.name, |names|));
        (generated, names[s.name := generated])
    else (q.resolve(s), names)
  }

  // ---- the expansion ----

  predicate IsCall(t: Form, head: Form) { t.List? && t.items != [] && t.items[0] == head }

  /** `First(Rest(t))` */
  function Operand(t: Form): Form
    requires t.List?
  {
    if |t.items| >= 2 then t.items[1] else Null
  }

  function Quoted(f: Form): Form { List([QUOTE, f]) }

  function Concat(parts: seq<Form>): Form { List([SEQ, List([CONCAT] + parts)]) }

  function Apply(f: Form, args: Form): Form { List([APPLY, f, args]) }

  function Expand(q: Quoter, names: Names, t: Form): (r: (Form, Names))
    ensures Extends(names, r.1)
    decreases t, 0
  {
    match t
    case Self(_) => (t, names)
    case Sym(s) =>
      var (renamed, next) := Rename(q, names, s);
      (Quoted(Sym(renamed)), next)
    case Map(kvs) =>
      var (parts, next) := ExpandAll(q, names, kvs);
      (Apply(HASH_MAP, Concat(parts)), next)
    case Vector(es) =>
      if es == [] then (Apply(VECTOR, Concat([])), names)
      else
        var (parts, next) := ExpandAll(q, names, es);
        (Apply(VECTOR, Concat(parts)), next)
    case List(es) =>
      if es == [] then (List([LIST]), names)
      else if IsCall(t, UNQUOTE) then (Operand(t), names)
      else
        var (parts, next) := ExpandAll(q, names, es);
        (Concat(parts), next)
    case _ => (Quoted(t), names)
  }

  /** One argument of `concat` per element: a splice is its operand, anything else a list of one. */
  function ExpandAll(q: Quoter, names: Names, ts: seq<Form>): (r: (seq<Form>, Names))
    ensures Extends(names, r.1)
    decreases ts, 0
  {
    if ts == [] then ([], names)
    else
      assert (ts decreases to ts[0]);
      var (part, next) := Part(q, names, ts[0]);
      var (parts, last) := ExpandAll(q, next, ts[1..]);
      ([part] + parts, last)
  }

  function Part(q: Quoter, names: Names, t: Form): (r: (Form, Names))
    ensures Extends(names, r.1)
    decreases t, 1
  {
    if IsCall(t, SPLICE) then (Operand(t), names)
    else
      var (code, next) := Expand(q, names, t);
      (List([LIST, code]), next)
  }

  predicate Extends(names: Names, next: Names) { forall k :: k in names ==> k in next && next[k] == names[k] }

  // ---- evaluation ----

  /** The value or error of user code, which may depend on the user code evaluated before it. */
  datatype User = User(run: (Form, seq<Form>) -> Option<Form>)

  datatype Result<T> = Ok(value: T, trace: seq<Form>) | Error(trace: seq<Form>)

  function RunUser(u: User, f: Form, trace: seq<Form>): Result<Form> {
    var r := u.run(f, trace);
    if r.None? then Error(trace + [f]) else Ok(r.value, trace + [f])
  }

  /** What a value contributes to a `concat`. */
  function Items(v: Form): Option<seq<Form>> {
    match v
    case Null => Some([])
    case List(xs) => Some(xs)
    case Vector(xs) => Some(xs)
    case Map(kvs) => Some(EntryVectors(kvs))
    case _ => None
  }

  function EntryVectors(kvs: seq<Form>): seq<Form> {
    if |kvs| < 2 then [] else [Vector([kvs[0], kvs[1]])] + EntryVectors(kvs[2..])
  }

  function Splice(vs: seq<Form>): Option<seq<Form>> {
    if vs == [] then Some([])
    else
      match (Items(vs[0]), Splice(vs[1..]))
      case (Some(xs), Some(rest)) => Some(xs + rest)
      case _ => None
  }

  /** `(apply hash-map args)`: an even number of arguments; a repeated key keeps the last value. */
  function HashMap(args: seq<Form>): Option<Form> {
    if |args| % 2 == 1 then None else Some(Map(PutAll([], args)))
  }

  function PutAll(kvs: seq<Form>, args: seq<Form>): seq<Form>
    decreases |args|
  {
    if |args| < 2 then kvs else PutAll(Put(kvs, args[0], args[1]), args[2..])
  }

  function Put(kvs: seq<Form>, k: Form, v: Form): seq<Form>
    decreases |kvs|
  {
    if |kvs| < 2 then [k, v] else if kvs[0] == k then [k, v] + kvs[2..] else kvs[..2] + Put(kvs[2..], k, v)
  }

  /** `(seq xs)` is nil when there are none. */
  function SeqOf(xs: seq<Form>): Form { if xs == [] then Null else List(xs) }

  function Check(v: Option<Form>, trace: seq<Form>): Result<Form> {
    if v.None? then Error(trace) else Ok(v.value, trace)
  }

  function Build(f: Form, xs: seq<Form>): Option<Form> { if f == VECTOR then Some(Vector(xs)) else HashMap(xs) }

  /** The core functions that expansions call; any other code is the user's. */
  function Eval(u: User, f: Form, trace: seq<Form>): Result<Form>
    decreases f
  {
    if f.List? && f.items != [] then
      var args := f.items[1..];
      assert (f decreases to f.items) && (f.items decreases to args);
      if f.items[0] == QUOTE && |args| == 1 then Ok(args[0], trace)
      else if f.items[0] == LIST then
        (match EvalAll(u, args, trace)
         case Ok(vs, t) => Ok(List(vs), t)
         case Error(t) => Error(t))
      else if f.items[0] == CONCAT then
        (match EvalAll(u, args, trace)
         case Ok(vs, t) => Check(if Splice(vs).None? then None else Some(List(Splice(vs).value)), t)
         case Error(t) => Error(t))
      else if f.items[0] == SEQ && |args| == 1 then
        assert (args decreases to args[0]);
        (match Eval(u, args[0], trace)
         case Ok(v, t) => Check(if Items(v).None? then None else Some(SeqOf(Items(v).value)), t)
         case Error(t) => Error(t))
      else if f.items[0] == APPLY && |args| == 2 && (args[0] == VECTOR || args[0] == HASH_MAP) then
        assert (args decreases to args[1]);
        (match Eval(u, args[1], trace)
         case Ok(v, t) => Check(if Items(v).None? then None else Build(args[0], Items(v).value), t)
         case Error(t) => Error(t))
      else RunUser(u, f, trace)
    else if f.Sym? || f.Vector? || f.Map? then RunUser(u, f, trace)
    else Ok(f, trace)
  }

  function EvalAll(u: User, fs: seq<Form>, trace: seq<Form>): Result<seq<Form>>
    decreases fs
  {
    if fs == [] then Ok([], trace)
    else
      assert (fs decreases to fs[0]);
      match Eval(u, fs[0], trace)
      case Ok(v, t) =>
        (match EvalAll(u, fs[1..], t)
         case Ok(vs, t2) => Ok([v] + vs, t2)
         case Error(t2) => Error(t2))
      case Error(t) => Error(t)
  }

  // ---- the meaning of a template ----

  /** The symbol that stands for `s` everywhere in one template. */
  function Renamed(q: Quoter, names: Names, s: Symbol): Symbol {
    if q.special(s) then s
    else if IsGensym(s) then if s.name in names then names[s.name] else s
    else q.resolve(s)
  }

  /** The template with its unquotes replaced by values and its splices in place. */
  function Instantiate(q: Quoter, u: User, names: Names, t: Form, trace: seq<Form>): Result<Form>
    decreases t
  {
    match t
    case Sym(s) => Ok(Sym(Renamed(q, names, s)), trace)
    case List(es) =>
      if IsCall(t, UNQUOTE) then Eval(u, Operand(t), trace)
      else if es == [] then Ok(t, trace)
      else Rebuild(q, u, names, es, trace, xs => Some(SeqOf(xs)))
    case Vector(es) => Rebuild(q, u, names, es, trace, xs => Some(Vector(xs)))
    case Map(kvs) => Rebuild(q, u, names, kvs, trace, HashMap)
    case _ => Ok(t, trace)
  }

  function Rebuild(q: Quoter, u: User, names: Names, ts: seq<Form>, trace: seq<Form>,
          make: seq<Form> -> Option<Form>): Result<Form>
    decreases ts, 1
  {
    match InstantiateAll(q, u, names, ts, trace)
    case Ok(vs, t) => Check(if Splice(vs).None? then None else make(Splice(vs).value), t)
    case Error(t) => Error(t)
  }

  /** What each element contributes: the value of a splice, or a list of one. */
  function InstantiateAll(q: Quoter, u: User, names: Names, ts: seq<Form>, trace: seq<Form>): Result<seq<Form>>
    decreases ts, 0
  {
    if ts == [] then Ok([], trace)
    else
      assert (ts decreases to ts[0]);
      var first := if IsCall(ts[0], SPLICE) then Eval(u, Operand(ts[0]), trace)
                   else
                     match Instantiate(q, u, names, ts[0], trace)
                     case Ok(v, t) => Ok(List([v]), t)
                     case Error(t) => Error(t);
      match first
      case Ok(v, t) =>
        (match InstantiateAll(q, u, names, ts[1..], t)
         case Ok(vs, t2) => Ok([v] + vs, t2)
         case Error(t2) => Error(t2))
      case Error(t) => Error(t)
  }

  // ---- evaluating the expansion rebuilds the template ----

  lemma EvalQuoted(u: User, f: Form, trace: seq<Form>)
    ensures Eval(u, Quoted(f), trace) == Ok(f, trace)
  {}

  lemma EvalOne(u: User, head: Form, f: Form, trace: seq<Form>)
    ensures List([head, f]).items[1..] == [f]
  {}

  lemma EvalConcat(u: User, parts: seq<Form>, trace: seq<Form>)
    ensures Eval(u, Concat(parts), trace)
         == match EvalAll(u, parts, trace)
            case Ok(vs, t) => Check(if Splice(vs).None? then None else Some(SeqOf(Splice(vs).value)), t)
            case Error(t) => Error(t)
  {
    hide EvalAll, Splice;
    var inner := List([CONCAT] + parts);
    assert inner.items[0] == CONCAT && inner.items[1..] == parts;
    assert Eval(u, inner, trace) == match EvalAll(u, parts, trace)
                                    case Ok(vs, t) => Check(if Splice(vs).None? then None
                                        else Some(List(Splice(vs).value)), t)
                                    case Error(t) => Error(t);
    EvalOne(u, SEQ, inner, trace);
  }

  lemma EvalApply(u: User, f: Form, parts: seq<Form>, trace: seq<Form>)
    requires f == VECTOR || f == HASH_MAP
    ensures Eval(u, Apply(f, Concat(parts)), trace)
         == match EvalAll(u, parts, trace)
            case Ok(vs, t) => Check(if Splice(vs).None? then None else Build(f, Splice(vs).value), t)
            case Error(t) => Error(t)
  {
    hide EvalAll, Splice, Build, Concat;
    EvalConcat(u, parts, trace);
    var code := Apply(f, Concat(parts));
    assert code.items[0] == APPLY && code.items[1..] == [f, Concat(parts)];
  }

  lemma RenameIsRenamed(q: Quoter, names: Names, s: Symbol, final: Names)
    requires Extends(Rename(q, names, s).1, final)
    ensures Rename(q, names, s).0 == Renamed(q, final, s)
  {}

  /** For every template, user code and history: evaluating the expansion is instantiating the template. */
  lemma {:induction false} ExpandIsInstantiate(q: Quoter, u: User, names: Names, t: Form, final: Names,
          trace: seq<Form>)
    requires Extends(Expand(q, names, t).1, final)
    ensures Eval(u, Expand(q, names, t).0, trace) == Instantiate(q, u, final, t, trace)
    decreases t, 0
  {
    hide Eval, EvalAll, ExpandAll, InstantiateAll, Rename, Renamed, Apply, Concat, Quoted, Splice;
    match t
    case Sym(s) =>
      RenameIsRenamed(q, names, s, final);
      EvalQuoted(u, Sym(Rename(q, names, s).0), trace);
    case Map(kvs) =>
      AllIsAll(q, u, names, kvs, final, trace);
      EvalApply(u, HASH_MAP, ExpandAll(q, names, kvs).0, trace);
    case Vector(es) =>
      VectorIsVector(q, u, names, es, final, trace);
    case List(es) =>
      if es == [] {
        EvalEmptyList(u, trace);
      } else if !IsCall(t, UNQUOTE) {
        AllIsAll(q, u, names, es, final, trace);
        EvalConcat(u, ExpandAll(q, names, es).0, trace);
      }
    case _ =>
      EvalAtom(u, t, trace);
  }

  lemma EvalEmptyList(u: User, trace: seq<Form>)
    ensures Eval(u, List([LIST]), trace) == Ok(List([]), trace)
  {
    assert List([LIST]).items[1..] == [];
  }

  lemma EvalAtom(u: User, t: Form, trace: seq<Form>)
    requires t.Self? || t.Other? || t.Null?
    ensures Eval(u, t, trace) == Eval(u, Quoted(t), trace) == Ok(t, trace)
  {
    EvalQuoted(u, t, trace);
  }

  lemma {:induction false} VectorIsVector(q: Quoter, u: User, names: Names, es: seq<Form>, final: Names,
          trace: seq<Form>)
    requires Extends(Expand(q, names, Vector(es)).1, final)
    ensures Eval(u, Expand(q, names, Vector(es)).0, trace) == Instantiate(q, u, final, Vector(es), trace)
    decreases es, 1
  {
    hide Eval, EvalAll, InstantiateAll, Apply, Concat, Splice;
    if es == [] { NoParts(q, names); }
    AllIsAll(q, u, names, es, final, trace);
    EvalApply(u, VECTOR, ExpandAll(q, names, es).0, trace);
  }

  lemma NoParts(q: Quoter, names: Names)
    ensures ExpandAll(q, names, []) == ([], names)
  {}

  lemma {:induction false} AllIsAll(q: Quoter, u: User, names: Names, ts: seq<Form>, final: Names, trace: seq<Form>)
    requires Extends(ExpandAll(q, names, ts).1, final)
    ensures EvalAll(u, ExpandAll(q, names, ts).0, trace) == InstantiateAll(q, u, final, ts, trace)
    decreases ts, 0
  {
    hide Eval, Expand, Instantiate;
    if ts != [] {
      assert (ts decreases to ts[0]);
      var (part, next) := Part(q, names, ts[0]);
      var (parts, last) := ExpandAll(q, next, ts[1..]);
      assert Extends(next, last);
      assert ([part] + parts)[0] == part && ([part] + parts)[1..] == parts;
      PartIsPart(q, u, names, ts[0], final, trace);
      var r := Eval(u, part, trace);
      if r.Ok? { AllIsAll(q, u, next, ts[1..], final, r.trace); }
    }
  }

  lemma {:induction false} PartIsPart(q: Quoter, u: User, names: Names, t: Form, final: Names, trace: seq<Form>)
    requires Extends(Part(q, names, t).1, final)
    ensures Eval(u, Part(q, names, t).0, trace)
         == if IsCall(t, SPLICE) then Eval(u, Operand(t), trace)
            else match Instantiate(q, u, final, t, trace)
                 case Ok(v, tr) => Ok(List([v]), tr)
                 case Error(tr) => Error(tr)
    decreases t, 1
  {
    hide Expand, Instantiate;
    if !IsCall(t, SPLICE) {
      ExpandIsInstantiate(q, u, names, t, final, trace);
      EvalListOfOne(u, Expand(q, names, t).0, trace);
    }
  }

  lemma EvalListOfOne(u: User, code: Form, trace: seq<Form>)
    ensures Eval(u, List([LIST, code]), trace)
         == match Eval(u, code, trace)
            case Ok(v, tr) => Ok(List([v]), tr)
            case Error(tr) => Error(tr)
  {
    EvalOne(u, LIST, code, trace);
    EvalSingle(u, code, trace);
  }

  lemma EvalSingle(u: User, code: Form, trace: seq<Form>)
    ensures EvalAll(u, [code], trace)
         == match Eval(u, code, trace)
            case Ok(v, tr) => Ok([v], tr)
            case Error(tr) => Error(tr)
  {
    hide Eval;
    assert [code][0] == code && [code][1..] == [];
    var r := Eval(u, code, trace);
    if r.Ok? {
      assert EvalAll(u, [code][1..], r.trace) == Ok([], r.trace);
      assert [r.value] + [] == [r.value];
    }
  }

  /** One whole syntax-quote, as the reader runs it: it starts with no renamed symbols. */
  function SyntaxQuoted(q: Quoter, t: Form): Form { Expand(q, map[], t).0 }

  function FinalNames(q: Quoter, t: Form): Names { Expand(q, map[], t).1 }

  lemma SyntaxQuoteRebuildsTemplate(q: Quoter, u: User, t: Form, trace: seq<Form>)
    ensures Eval(u, SyntaxQuoted(q, t), trace) == Instantiate(q, u, FinalNames(q, t), t, trace)
  {
    hide Expand, Eval, Instantiate;
    ExpandIsInstantiate(q, u, map[], t, FinalNames(q, t), trace);
  }

  /** A non-empty list whose elements all vanish becomes nil, an empty one stays a list. */
  lemma VanishingList(q: Quoter, u: User, x: Form, trace: seq<Form>, after: seq<Form>)
    requires Eval(u, x, trace) == Ok(List([]), after)
    ensures Eval(u, SyntaxQuoted(q, List([List([SPLICE, x])])), trace) == Ok(Null, after)
    ensures Eval(u, SyntaxQuoted(q, List([])), trace) == Ok(List([]), trace)
  {
    hide Eval;
    var splice := List([SPLICE, x]);
    SyntaxQuoteRebuildsTemplate(q, u, List([splice]), trace);
    SyntaxQuoteRebuildsTemplate(q, u, List([]), trace);
    assert [splice][1..] == [];
    assert IsCall(splice, SPLICE) && Operand(splice) == x && !IsCall(List([splice]), UNQUOTE);
    var names := FinalNames(q, List([splice]));
    assert [splice][0] == splice && InstantiateAll(q, u, names, [splice][1..], after) == Ok([], after);
    assert [List([])] + [] == [List([])];
    assert InstantiateAll(q, u, names, [splice], trace) == Ok([List([])], after);
    assert Splice([List([])]) == Some([]) by { assert [List([])][1..] == []; }
  }

  // ---- generated symbols are distinct ----

  predicate IsDigit(c: char) { '0' <= c <= '9' }

  lemma {:induction false} ItoaDigits(n: nat)
    ensures |Itoa(n)| > 0 && forall i :: 0 <= i < |Itoa(n)| ==> IsDigit(Itoa(n)[i])
  {
    if n >= 10 { ItoaDigits(n / 10); }
  }

  lemma {:induction false} ItoaInjective(m: nat, n: nat)
    requires Itoa(m) == Itoa(n)
    ensures m == n
  {
    var a, b := Itoa(m), Itoa(n);
    ItoaDigits(m / 10);
    ItoaDigits(n / 10);
    assert a[|a| - 1] == Digit(m % 10) && b[|b| - 1] == Digit(n % 10);
    SameDigit(m % 10, n % 10);
    if m >= 10 && n >= 10 {
      assert a[..|a| - 1] == Itoa(m / 10) && b[..|b| - 1] == Itoa(n / 10);
      ItoaInjective(m / 10, n / 10);
    }
  }

  lemma SameDigit(c: nat, d: nat)
    requires c < 10 && d < 10 && Digit(c) == Digit(d)
    ensures c == d
  {}

  /** Reading back from the end, the digits stop at the underscore: the count can be recovered. */
  lemma SuffixDigits(p: string, a: string, r: string, b: string)
    requires p + "__" + a == r + "__" + b
    requires (forall i :: 0 <= i < |a| ==> IsDigit(a[i])) && (forall i :: 0 <= i < |b| ==> IsDigit(b[i]))
    ensures a == b && p == r
  {
    NotShorter(p, a, r, b);
    NotShorter(r, b, p, a);
    var s := p + "__" + a;
    assert a == s[|s| - |a|..] == b;
    assert p == s[..|s| - |a| - 2] == r;
  }

  lemma NotShorter(p: string, a: string, r: string, b: string)
    requires p + "__" + a == r + "__" + b && forall i :: 0 <= i < |b| ==> IsDigit(b[i])
    ensures |a| >= |b|
  {
    assert |p + "__" + a| == |r + "__" + b|;
    UnderscoreAt(p, a);
    if |a| < |b| { DigitAt(r, b, |p| + 1); }
  }

  lemma UnderscoreAt(p: string, a: string)
    ensures (p + "__" + a)[|p| + 1] == '_'
  {}

  lemma DigitAt(r: string, b: string, k: nat)
    requires |r| + 2 <= k < |r| + 2 + |b| && forall i :: 0 <= i < |b| ==> IsDigit(b[i])
    ensures IsDigit((r + "__" + b)[k])
  {
    assert (r + "__" + b)[k] == b[k - |r| - 2];
  }

  lemma GeneratedNamesDiffer(m: string, i: nat, n: string, j: nat)
    requires |m| > 0 && |n| > 0 && m[|m| - 1] == n[|n| - 1] && GeneratedName(m, i) == GeneratedName(n, j)
    ensures m == n && i == j
  {
    var a, b := m[..|m| - 1] + "__" + Itoa(i), n[..|n| - 1] + "__" + Itoa(j);
    assert a == GeneratedName(m, i)[..|GeneratedName(m, i)| - 8] == b;
    ItoaDigits(i);
    ItoaDigits(j);
    SuffixDigits(m[..|m| - 1], Itoa(i), n[..|n| - 1], Itoa(j));
    ItoaInjective(i, j);
    assert m == m[..|m| - 1] + [m[|m| - 1]] && n == n[..|n| - 1] + [n[|n| - 1]];
  }

  /** The `x#` names that a quote renames, as often as they occur, from left to right. */
  function Occurrences(q: Quoter, t: Form): seq<string>
    decreases t, 0
  {
    match t
    case Sym(s) => if !q.special(s) && IsGensym(s) then [s.name] else []
    case Map(kvs) => AllOccurrences(q, kvs)
    case Vector(es) => AllOccurrences(q, es)
    case List(es) => if IsCall(t, UNQUOTE) then [] else AllOccurrences(q, es)
    case _ => []
  }

  function AllOccurrences(q: Quoter, ts: seq<Form>): seq<string>
    decreases ts, 0
  {
    if ts == [] then []
    else
      assert (ts decreases to ts[0]);
      (if IsCall(ts[0], SPLICE) then [] else Occurrences(q, ts[0])) + AllOccurrences(q, ts[1..])
  }

  /** The names already seen, then the new ones in the order of their first occurrence. */
  function Distinct(seen: seq<string>, names: seq<string>): seq<string>
    decreases |names|
  {
    if names == [] then seen
    else Distinct(if names[0] in seen then seen else seen + [names[0]], names[1..])
  }

  /** The renamed names of a quote, in the order of their first occurrence. */
  function Order(q: Quoter, t: Form): seq<string> { Distinct([], Occurrences(q, t)) }

  function Position(names: seq<string>, a: string): (i: nat)
    ensures a in names ==> i < |names| && names[i] == a
    ensures forall j :: 0 <= j < i && j < |names| ==> names[j] != a
  {
    if names == [] || names[0] == a then 0 else 1 + Position(names[1..], a)
  }

  /** Each name in `order` got its symbol when the map had the size that is its position. */
  ghost predicate Numbered(names: Names, order: seq<string>) {
    && |names| == |order|
    && (forall k :: k in names <==> k in order)
    && (forall i :: 0 <= i < |order| ==>
        IsGensym(Symbol("", order[i])) && names[order[i]] == Symbol("", GeneratedName(order[i], i)))
  }

  lemma {:induction false} DistinctAppend(seen: seq<string>, a: seq<string>, b: seq<string>)
    ensures Distinct(seen, a + b) == Distinct(Distinct(seen, a), b)
    decreases |a|
  {
    if a == [] {
      assert a + b == b;
    } else {
      assert (a + b)[1..] == a[1..] + b;
      DistinctAppend(if a[0] in seen then seen else seen + [a[0]], a[1..], b);
    }
  }

  lemma RenameNumbers(q: Quoter, names: Names, order: seq<string>, s: Symbol)
    requires Numbered(names, order)
    ensures Numbered(Rename(q, names, s).1, Distinct(order, Occurrences(q, Sym(s))))
  {
    hide GeneratedName;
    if !q.special(s) && IsGensym(s) {
      assert [s.name][1..] == [];
      assert Distinct(order, [s.name]) == if s.name in order then order else order + [s.name];
    }
  }

  lemma {:induction false} ExpandNumbers(q: Quoter, names: Names, order: seq<string>, t: Form)
    requires Numbered(names, order)
    ensures Numbered(Expand(q, names, t).1, Distinct(order, Occurrences(q, t)))
    decreases t, 0
  {
    hide Numbered, Rename;
    match t
    case Sym(s) => RenameNumbers(q, names, order, s);
    case Map(kvs) => AllNumbers(q, names, order, kvs);
    case Vector(es) => if es != [] { AllNumbers(q, names, order, es); }
    case List(es) => if es != [] && !IsCall(t, UNQUOTE) { AllNumbers(q, names, order, es); }
    case _ =>
  }

  lemma {:induction false} AllNumbers(q: Quoter, names: Names, order: seq<string>, ts: seq<Form>)
    requires Numbered(names, order)
    ensures Numbered(ExpandAll(q, names, ts).1, Distinct(order, AllOccurrences(q, ts)))
    decreases ts, 0
  {
    hide Numbered, Expand, Distinct, Occurrences;
    if ts == [] {
      DistinctNone(order);
    } else {
      assert (ts decreases to ts[0]);
      var first := if IsCall(ts[0], SPLICE) then [] else Occurrences(q, ts[0]);
      if IsCall(ts[0], SPLICE) { DistinctNone(order); } else { ExpandNumbers(q, names, order, ts[0]); }
      AllNumbers(q, Part(q, names, ts[0]).1, Distinct(order, first), ts[1..]);
      DistinctAppend(order, first, AllOccurrences(q, ts[1..]));
    }
  }

  lemma DistinctNone(order: seq<string>)
    ensures Distinct(order, []) == order
  {}

  /** A quote renames exactly the names that occur in it, each by its number in the order of first occurrence. */
  lemma GensymsAreNumbered(q: Quoter, t: Form, a: string)
    ensures a in FinalNames(q, t) <==> a in Order(q, t)
    ensures a in Order(q, t) ==>
              IsGensym(Symbol("", a))
              && FinalNames(q, t)[a] == Symbol("", GeneratedName(a, Position(Order(q, t), a)))
  {
    hide Expand, GeneratedName, Distinct, Occurrences, Position;
    DistinctNone([]);
    ExpandNumbers(q, map[], [], t);
    if a in Order(q, t) { assert Order(q, t)[Position(Order(q, t), a)] == a; }
  }

  /** Within one quote, different `x#` names become different symbols (and `Instantiate` uses one symbol per name). */
  lemma GensymsAreDistinct(q: Quoter, t: Form, a: string, b: string)
    requires a in FinalNames(q, t) && b in FinalNames(q, t)
    ensures FinalNames(q, t)[a] == FinalNames(q, t)[b] <==> a == b
  {
    hide Expand, Order, Position;
    GensymsCollide(q, t, t, a, b);
  }

  /**
   Two quotes generate the same symbol exactly for the same name with the same number: the count starts again in
   every quote.
   */
  lemma GensymsCollide(q: Quoter, t: Form, u: Form, a: string, b: string)
    requires a in FinalNames(q, t) && b in FinalNames(q, u)
    ensures FinalNames(q, t)[a] == FinalNames(q, u)[b] <==>
            a == b && Position(Order(q, t), a) == Position(Order(q, u), b)
  {
    hide Expand, GeneratedName, Order, Position;
    GensymsAreNumbered(q, t, a);
    GensymsAreNumbered(q, u, b);
    if FinalNames(q, t)[a] == FinalNames(q, u)[b] {
      GeneratedNamesDiffer(a, Position(Order(q, t), a), b, Position(Order(q, u), b));
    }
  }

  /** So two quotes of the same name alone yield the same symbol. */
  lemma GensymsRepeatAcrossQuotes(q: Quoter, s: Symbol)
    requires IsGensym(s) && !q.special(s)
    ensures SyntaxQuoted(q, Sym(s)) == Quoted(Sym(Symbol("", s.name[..|s.name| - 1] + "__0__auto__")))
  {
    assert s.name[..|s.name| - 1] + "__" + "0" + "__auto__" == s.name[..|s.name| - 1] + "__0__auto__";
    assert Itoa(0) == "0";
  }

  // ---- the reader, which keeps the renamed symbols in a map that it updates ----

  class Reader {
    const q: Quoter
    var symbolNameMap: Names

    constructor (q: Quoter)
      ensures this.q == q && symbolNameMap == map[]
    {
      this.q := q;
      symbolNameMap := map[];
    }

    method RenameSymbol(s: Symbol) returns (r: Symbol)
      modifies this
      ensures (r, symbolNameMap) == Rename(q, old(symbolNameMap), s)
    {
      r := s;
      if q.special(s) {
      } else if IsGensym(s) {
        if s.name in symbolNameMap {
          r := symbolNameMap[s.name];
        } else {
          r := Symbol("", GeneratedName(s.name, |symbolNameMap|));
          symbolNameMap := symbolNameMap[s.name := r];
        }
      } else {
        r := q.resolve(s);
      }
    }

    method SyntaxQuote(t: Form) returns (code: Form)
      modifies this
      ensures (code, symbolNameMap) == Expand(q, old(symbolNameMap), t)
      decreases t, 0
    {
      match t
      case Self(_) => code := t;
      case Sym(s) =>
        var r := RenameSymbol(s);
        code := Quoted(Sym(r));
      case Map(kvs) =>
        var parts := ExpandList(kvs);
        code := Apply(HASH_MAP, Concat(parts));
      case Vector(es) =>
        if es == [] {
          code := Apply(VECTOR, Concat([]));
        } else {
          var parts := ExpandList(es);
          code := Apply(VECTOR, Concat(parts));
        }
      case List(es) =>
        if es == [] {
          code := List([LIST]);
        } else if IsCall(t, UNQUOTE) {
          code := Operand(t);
        } else {
          var parts := ExpandList(es);
          code := Concat(parts);
        }
      case _ => code := Quoted(t);
    }

    /** The loop over the elements, appending one argument of `concat` each time. */
    method ExpandList(ts: seq<Form>) returns (parts: seq<Form>)
      modifies this
      ensures (parts, symbolNameMap) == ExpandAll(q, old(symbolNameMap), ts)
      decreases ts, 1
    {
      hide Expand;
      parts := [];
      var i := 0;
      while i < |ts|
        invariant 0 <= i <= |ts|
        invariant var all := ExpandAll(q, old(symbolNameMap), ts);
                  var todo := ExpandAll(q, symbolNameMap, ts[i..]);
                  all.1 == todo.1 && all.0 == parts + todo.0
      {
        var t := ts[i];
        assert (ts decreases to t);
        assert ts[i..][0] == t && ts[i..][1..] == ts[i + 1..];
        ghost var before := symbolNameMap;
        var part: Form;
        if IsCall(t, SPLICE) {
          part := Operand(t);
        } else {
          var code := SyntaxQuote(t);
          part := List([LIST, code]);
        }
        assert (part, symbolNameMap) == Part(q, before, t);
        parts := parts + [part];
        i := i + 1;
      }
      assert ts[i..] == [];
      NoParts(q, symbolNameMap);
      ghost var all := ExpandAll(q, old(symbolNameMap), ts);
      assert all.0 == parts + [] == parts && all.1 == symbolNameMap;
      assert all == (all.0, all.1);
    }
  }
}
