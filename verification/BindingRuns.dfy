/**
 What `PushThreadBindings`, `PopThreadBindings`, `CloneThreadBindingFrame` and `ResetThreadBindingFrame`
 (`pkg/lang/var.go`) promise the goroutine that calls them, over runs in which all the other goroutines push,
 pop, set, capture, reset and bind roots between any two of its steps.
 */
module BindingRuns {
  import opened Objects
  import opened VarBindings

  predicate ActsFor(a: Action, g: nat) { !a.BindRoot? && a.g == g }

  /** The goroutine only goes on with what it has started; all the others do what they like. */
  predicate OnlyProceeds(actions: seq<Action>, g: nat) {
    forall a :: a in actions && ActsFor(a, g) ==> a.Proceed?
  }

  ghost predicate Sound(st: State) { CountersOk(st) && Stamped(st) && Unshared(st) }

  lemma SoundStep(st: State, a: Action)
    requires Sound(st)
    ensures Sound(Step(st, a))
  {
    hide CountersOk, Stamped, Unshared, Step;
    CountersStep(st, a);
    UnsharedStep(st, a);
  }

  lemma SoundRun(st: State, actions: seq<Action>)
    requires Sound(st)
    ensures Sound(Run(st, actions))
  {
    hide CountersOk, Stamped, Unshared, Run;
    RunKeepsCounters(st, actions);
    RunKeepsUnshared(st, actions);
  }

  /** So all that follows is about every state that can be reached. */
  lemma SoundFromStart(n: nat, dynamic: set<Var>, actions: seq<Action>)
    ensures Sound(Run(Fresh(n, dynamic), actions))
  {
    hide CountersOk, Run;
    FreshOk(n, dynamic);
    SoundRun(Fresh(n, dynamic), actions);
  }

  // ---- what a step leaves alone ----

  /** What frames say about a Var. */
  function Reads(st: State, frames: seq<Frame>, v: Var): Option<Value> {
    var b := Innermost(frames, v);
    if b.Some? then Some(ValueOf(st, b.value)) else None
  }

  lemma MeaningReads(st: State, g: nat, v: Var)
    requires g < |st.gs|
    ensures var r := Reads(st, st.gs[g].frames, v);
            Meaning(st, g, v) == if r.Some? then r.value else Root(st, v)
  {}

  /** A box keeps its value in every step but a `set!` by the goroutine whose stack holds it. */
  lemma BoxKept(st: State, a: Action, p: Place, i: nat, v: Var)
    requires Stamped(st) && Unshared(st) && BoxAt(st, p, i, v).Some?
    requires !(a.SetBinding? && p == Stack(a.g))
    ensures ValueOf(Step(st, a), BoxAt(st, p, i, v).value) == ValueOf(st, BoxAt(st, p, i, v).value)
  {
    hide CloneFrames, Binds;
    if a.SetBinding? && a.g < |st.gs| { InnermostIsAt(st, a.g, a.v); }
  }

  lemma ReadsKept(st: State, a: Action, p: Place, frames: seq<Frame>, v: Var)
    requires Stamped(st) && Unshared(st) && frames <= StoreAt(st, p)
    requires !(a.SetBinding? && p == Stack(a.g))
    ensures Reads(Step(st, a), frames, v) == Reads(st, frames, v)
  {
    hide Stamped, Unshared, Step, ValueOf;
    if Innermost(frames, v).Some? {
      var i := InnermostIndex(frames, v);
      assert BoxAt(st, p, i, v) == Some(frames[i][v]);
      BoxKept(st, a, p, i, v);
    }
  }

  /** The steps of others do not touch a goroutine. */
  lemma StepIsLocal(st: State, a: Action, g: nat)
    requires g < |st.gs|
    ensures !ActsFor(a, g) ==> Step(st, a).gs[g] == st.gs[g]
    ensures Step(st, a).dynamic == st.dynamic
  {
    hide CloneFrames, CloneHeap, Binds;
  }

  /** However the others run, a goroutine that does nothing reads what it read. */
  lemma {:induction false} OthersChangeNoRead(st: State, actions: seq<Action>, g: nat, v: Var)
    requires Sound(st) && g < |st.gs| && forall a :: a in actions ==> !ActsFor(a, g)
    ensures var done := Run(st, actions);
            g < |done.gs| && done.gs[g] == st.gs[g] && Reads(done, st.gs[g].frames, v) == Reads(st, st.gs[g].frames, v)
    decreases |actions|
  {
    hide CountersOk, Stamped, Unshared, Step, Reads;
    if actions != [] {
      StepIsLocal(st, actions[0], g);
      ReadsKept(st, actions[0], Stack(g), st.gs[g].frames, v);
      SoundStep(st, actions[0]);
      OthersChangeNoRead(Step(st, actions[0]), actions[1..], g, v);
    }
  }

  /** However everyone runs, a captured frame list says what it said when it was captured. */
  lemma {:induction false} CapturesNeverChange(st: State, actions: seq<Action>, c: nat, v: Var)
    requires Sound(st) && c < |st.conveyed|
    ensures var done := Run(st, actions);
            && c < |done.conveyed| && done.conveyed[c] == st.conveyed[c]
            && Reads(done, st.conveyed[c], v) == Reads(st, st.conveyed[c], v)
    decreases |actions|
  {
    hide CountersOk, Stamped, Unshared, Step, Reads;
    if actions != [] {
      StepKeepsCapture(st, actions[0], c);
      ReadsKept(st, actions[0], Conveyed(c), st.conveyed[c], v);
      SoundStep(st, actions[0]);
      CapturesNeverChange(Step(st, actions[0]), actions[1..], c, v);
    }
  }

  lemma StepKeepsCapture(st: State, a: Action, c: nat)
    requires c < |st.conveyed|
    ensures c < |Step(st, a).conveyed| && Step(st, a).conveyed[c] == st.conveyed[c]
  {
    hide CloneFrames, CloneHeap, Binds;
  }

  // ---- counters ----

  /** By how much the steps of the other goroutines change a counter. */
  function ByOthers(st: State, actions: seq<Action>, g: nat, v: Var): int
    decreases |actions|
  {
    if actions == [] then 0
    else
      var next := Step(st, actions[0]);
      (if ActsFor(actions[0], g) then 0 else Counter(next, v) - Counter(st, v)) + ByOthers(next, actions[1..], g, v)
  }

  lemma StepCounts(st: State, a: Action, g: nat)
    requires CountersOk(st) && g < |st.gs| && ActsFor(a, g)
    ensures InStep(st, Step(st, a), g)
  {
    hide WorkOk, Counted, Total, Continue, StartPush, StartPop, StartReset, CloneFrames, CloneHeap, InStep;
    match a
    case Proceed(_, pick) => ProceedCounts(st, g, pick);
    case Push(_, _) => if st.gs[g].work.Idle? { PushInStep(st, g, a); } else { StillInStep(st, Step(st, a), g); }
    case Pop(_) => if st.gs[g].work.Idle? { PopInStep(st, g, a); } else { StillInStep(st, Step(st, a), g); }
    case Reset(_, _) => if st.gs[g].work.Idle? { ResetInStep(st, g, a); } else { StillInStep(st, Step(st, a), g); }
    case _ => StillInStep(st, Step(st, a), g);
  }

  lemma ProceedCounts(st: State, g: nat, pick: Var)
    requires CountersOk(st) && g < |st.gs|
    ensures InStep(st, Continue(st, g, pick), g)
  {
    hide Counted, Total, Continue, InStep;
    match st.gs[g].work
    case Pushing(_) => PushingInStep(st, g, pick);
    case Counting(_, _) => CountingInStep(st, g, pick);
    case Leaving(_, _) => LeavingInStep(st, g, pick);
    case Entering(_) => EnteringInStep(st, g, pick);
    case _ => PoppingInStep(st, g, pick);
  }

  lemma StillInStep(st: State, next: State, g: nat)
    requires CountersOk(st) && g < |st.gs| && next.gs == st.gs && next.counters == st.counters
    ensures InStep(st, next, g)
  {}

  /** A counter changes by what the others do, and by how the goroutine's own counted frames have changed. */
  lemma {:induction false} CounterChange(st: State, actions: seq<Action>, g: nat, v: Var)
    requires CountersOk(st) && g < |st.gs|
    ensures var done := Run(st, actions);
            g < |done.gs|
            && Counter(done, v) - Counter(st, v)
               == ByOthers(st, actions, g, v) + Counted(done.gs[g], v) - Counted(st.gs[g], v)
    decreases |actions|
  {
    hide CountersOk, Step, Counter, Counted, WorkOk;
    if actions != [] {
      var next := Step(st, actions[0]);
      CountersStep(st, actions[0]);
      if ActsFor(actions[0], g) { StepCounts(st, actions[0], g); } else { StepIsLocal(st, actions[0], g); }
      CounterChange(next, actions[1..], g, v);
    }
  }

  // ---- a push ----

  /** How many entries come before the first one whose Var is not dynamic. */
  function Bindable(dynamic: set<Var>, es: seq<NewBinding>): (k: nat)
    ensures k <= |es| && (k < |es| ==> es[k].v !in dynamic)
    ensures forall i :: 0 <= i < k ==> es[i].v in dynamic
  {
    if es == [] || es[0].v !in dynamic then 0 else 1 + Bindable(dynamic, es[1..])
  }

  /** The frame binds exactly the Vars of `es`, to their values. */
  ghost predicate Binding(st: State, frame: Frame, es: seq<NewBinding>) {
    && (forall v :: v in frame ==> exists i :: 0 <= i < |es| && es[i].v == v)
    && (forall i :: 0 <= i < |es| ==> es[i].v in frame && ValueOf(st, frame[es[i].v]) == es[i].val)
  }

  /** A push above `below` that has bound `j` entries. */
  ghost predicate Pushed(st: State, g: nat, below: seq<Frame>, es: seq<NewBinding>, j: nat) {
    && g < |st.gs| && j <= Bindable(st.dynamic, es) && DistinctKeys(es)
    && var me := st.gs[g];
       && |me.frames| == |below| + 1 && below <= me.frames && Binding(st, me.frames[|below|], es[..j])
       && match me.work
          case Pushing(todo) => todo == es[j..]
          case Counting(_, todo) => todo == es[j..]
          case Idle => j == Bindable(st.dynamic, es)
          case _ => false
  }

  lemma PushProceeds(st: State, g: nat, pick: Var, below: seq<Frame>, es: seq<NewBinding>, j: nat) returns (k: nat)
    requires Sound(st) && Pushed(st, g, below, es, j)
    ensures Pushed(Step(st, Proceed(g, pick)), g, below, es, k)
  {
    hide CountersOk, Unshared, Stamped, Bindable;
    var me, next := st.gs[g], Step(st, Proceed(g, pick));
    k := j;
    if me.work.Pushing? && j < |es| && es[j].v in st.dynamic {
      k := j + 1;
      EntryStored(st, g, pick, below, es, j);
    } else {
      assert next.heap == st.heap && next.gs[g].frames == me.frames;
    }
  }

  lemma EntryStored(st: State, g: nat, pick: Var, below: seq<Frame>, es: seq<NewBinding>, j: nat)
    requires Stamped(st) && Pushed(st, g, below, es, j) && st.gs[g].work.Pushing?
    requires j < |es| && es[j].v in st.dynamic
    ensures Pushed(Step(st, Proceed(g, pick)), g, below, es, j + 1)
  {
    var me, next := st.gs[g], Step(st, Proceed(g, pick));
    var n, b := |below|, Box(st.clock, 0, es[j].v);
    assert es[j..][0] == es[j] && es[j..][1..] == es[j + 1..];
    assert me.frames[..n] == below;
    var top := next.gs[g].frames[n];
    assert top == me.frames[n][es[j].v := b];
    assert es[..j + 1] == es[..j] + [es[j]];
    forall i | 0 <= i < j + 1 ensures es[i].v in top && ValueOf(next, top[es[i].v]) == es[i].val {
      if i < j {
        assert es[..j][i] == es[i];
        assert BoxAt(st, Stack(g), n, es[i].v) == Some(me.frames[n][es[i].v]);
      }
    }
    var stored := es[..j + 1];
    forall v | v in top ensures exists i :: 0 <= i < |stored| && stored[i].v == v {
      if v == es[j].v {
        assert stored[j].v == v;
      } else {
        var i :| 0 <= i < |es[..j]| && es[..j][i].v == v;
        assert stored[i].v == v;
      }
    }
  }

  lemma PushWaits(st: State, a: Action, g: nat, below: seq<Frame>, es: seq<NewBinding>, j: nat)
    requires Sound(st) && Pushed(st, g, below, es, j) && !ActsFor(a, g)
    ensures Pushed(Step(st, a), g, below, es, j)
  {
    hide CountersOk, Unshared, Stamped, Step, ValueOf, BoxAt, StoreAt;
    var frame, next := st.gs[g].frames[|below|], Step(st, a);
    StepIsLocal(st, a, g);
    forall i | 0 <= i < |es[..j]| ensures ValueOf(next, frame[es[..j][i].v]) == es[..j][i].val {
      var v := es[..j][i].v;
      StackHolds(st, g, |below|, v);
      BoxKept(st, a, Stack(g), |below|, v);
    }
  }

  lemma StackHolds(st: State, g: nat, i: nat, v: Var)
    requires g < |st.gs| && i < |st.gs[g].frames| && v in st.gs[g].frames[i]
    ensures BoxAt(st, Stack(g), i, v) == Some(st.gs[g].frames[i][v])
  {}

  lemma {:induction false} PushRuns(st: State, actions: seq<Action>, g: nat, below: seq<Frame>, es: seq<NewBinding>,
          j: nat, v: Var) returns (k: nat)
    requires Sound(st) && Pushed(st, g, below, es, j) && OnlyProceeds(actions, g)
    ensures var done := Run(st, actions);
            Sound(done) && Pushed(done, g, below, es, k) && Reads(done, below, v) == Reads(st, below, v)
    ensures Run(st, actions).dynamic == st.dynamic
    decreases |actions|
  {
    hide Sound, Step, Reads, Pushed, ActsFor;
    k := j;
    if actions != [] {
      var a, next := actions[0], Step(st, actions[0]);
      SoundStep(st, a);
      k := PushSteps(st, a, g, below, es, j, v);
      k := PushRuns(next, actions[1..], g, below, es, k, v);
    }
  }

  lemma PushSteps(st: State, a: Action, g: nat, below: seq<Frame>, es: seq<NewBinding>, j: nat, v: Var) returns (k: nat)
    requires Sound(st) && Pushed(st, g, below, es, j) && (ActsFor(a, g) ==> a.Proceed?)
    ensures Pushed(Step(st, a), g, below, es, k) && Reads(Step(st, a), below, v) == Reads(st, below, v)
    ensures Step(st, a).dynamic == st.dynamic
  {
    hide CountersOk, Stamped, Unshared, Step, Reads, Binding, Bindable;
    k := j;
    if ActsFor(a, g) { k := PushProceeds(st, g, a.pick, below, es, j); } else { PushWaits(st, a, g, below, es, j); }
    ReadsKept(st, a, Stack(g), below, v);
    StepIsLocal(st, a, g);
  }

  /**
   A finished push, whatever the others did meanwhile, has put one frame on the stack, and that frame binds exactly
   the entries before the first one whose Var is not dynamic. Every other Var reads as before.
   */
  lemma PushBinds(st: State, g: nat, es: seq<NewBinding>, actions: seq<Action>, v: Var)
    requires Sound(st) && g < |st.gs| && st.gs[g].work.Idle? && DistinctKeys(es) && OnlyProceeds(actions, g)
    requires var done := Run(Step(st, Push(g, es)), actions);
             g < |done.gs| && done.gs[g].work.Idle?
    ensures var done := Run(Step(st, Push(g, es)), actions);
            var below, frames, bound := st.gs[g].frames, done.gs[g].frames, es[..Bindable(st.dynamic, es)];
            && |frames| == |below| + 1 && frames[..|below|] == below && Binding(done, frames[|below|], bound)
            && Reads(done, frames, v) == if Bound(bound, v).Some? then Bound(bound, v) else Reads(st, below, v)
  {
    hide Sound, Run, Binding, Reads, Bound, Bindable;
    var below, start := st.gs[g].frames, Step(st, Push(g, es));
    PushStarts(st, g, es, v);
    var k := PushRuns(start, actions, g, below, es, 0, v);
    BoundAbove(Run(start, actions), below, Run(start, actions).gs[g].frames, es[..k], v);
  }

  lemma PushStarts(st: State, g: nat, es: seq<NewBinding>, v: Var)
    requires Sound(st) && g < |st.gs| && st.gs[g].work.Idle? && DistinctKeys(es)
    ensures var start := Step(st, Push(g, es));
            && Sound(start) && Pushed(start, g, st.gs[g].frames, es, 0) && start.dynamic == st.dynamic
            && Reads(start, st.gs[g].frames, v) == Reads(st, st.gs[g].frames, v)
  {
    hide Sound, Bindable;
    SoundStep(st, Push(g, es));
  }

  function Bound(es: seq<NewBinding>, v: Var): Option<Value> {
    if es == [] then None else if es[0].v == v then Some(es[0].val) else Bound(es[1..], v)
  }

  lemma {:induction false} BoundIndex(es: seq<NewBinding>, v: Var) returns (i: nat)
    ensures i <= |es| && (i < |es| ==> es[i].v == v && Bound(es, v) == Some(es[i].val))
    ensures i == |es| ==> Bound(es, v) == None && forall j :: 0 <= j < |es| ==> es[j].v != v
  {
    i := 0;
    if es != [] && es[0].v != v {
      i := BoundIndex(es[1..], v);
      i := i + 1;
    }
  }

  lemma BoundAbove(st: State, below: seq<Frame>, frames: seq<Frame>, es: seq<NewBinding>, v: Var)
    requires |frames| == |below| + 1 && below <= frames && Binding(st, frames[|below|], es)
    ensures Reads(st, frames, v) == if Bound(es, v).Some? then Bound(es, v) else Reads(st, below, v)
  {
    hide ValueOf, Bound;
    assert frames[..|below|] == below;
    var i := BoundIndex(es, v);
  }

  /** "Everything is bound" holds exactly if every Var is dynamic; a push that panics leaves its frame behind. */
  lemma PushBindsAllIfDynamic(st: State, g: nat, es: seq<NewBinding>, actions: seq<Action>)
    requires Sound(st) && g < |st.gs| && st.gs[g].work.Idle? && DistinctKeys(es) && OnlyProceeds(actions, g)
    requires var done := Run(Step(st, Push(g, es)), actions);
             g < |done.gs| && done.gs[g].work.Idle?
    ensures var done := Run(Step(st, Push(g, es)), actions);
            && |done.gs[g].frames| == |st.gs[g].frames| + 1
            && (Binding(done, done.gs[g].frames[|st.gs[g].frames|], es)
                <==> forall i :: 0 <= i < |es| ==> es[i].v in st.dynamic)
  {
    hide Sound, Run, Step, Bindable, ValueOf;
    PushBinds(st, g, es, actions, 0);
    var k := Bindable(st.dynamic, es);
    assert k == |es| ==> es[..k] == es;
    if k < |es| {
      forall i | 0 <= i < k ensures es[i].v != es[k].v {}
    }
  }

  /** Two entries, the second for a Var that is not dynamic: the push panics and the first stays bound. */
  lemma PanicLeavesPartialFrame()
    ensures var es := [NewBinding(0, 5), NewBinding(1, 6)];
            var st := Run(Fresh(1, {0}), [Push(0, es), Proceed(0, 0), Proceed(0, 0), Proceed(0, 0)]);
            && st.gs == [Goroutine([map[0 := Box(1, 0, 0)]], Idle)]
            && Get(st, 0, 0) == 5 && Get(st, 0, 1) == UNBOUND() && Counter(st, 0) == 1
  {
    var es := [NewBinding(0, 5), NewBinding(1, 6)];
    var s0 := Step(Fresh(1, {0}), Push(0, es));
    var s1 := Step(s0, Proceed(0, 0));
    var s2 := Step(s1, Proceed(0, 0));
    var s3 := Step(s2, Proceed(0, 0));
    assert Run(s3, []) == s3;
    assert Run(s2, [Proceed(0, 0)]) == s3;
    assert Run(s1, [Proceed(0, 0), Proceed(0, 0)]) == s3;
    assert Run(s0, [Proceed(0, 0), Proceed(0, 0), Proceed(0, 0)]) == s3;
    assert s3.gs[0].frames[..0] == [];
  }

  // ---- a pop ----

  lemma {:induction false} PopRuns(st: State, actions: seq<Action>, g: nat, v: Var)
    requires Sound(st) && g < |st.gs| && (st.gs[g].work.Popping? || st.gs[g].work.Idle?) && OnlyProceeds(actions, g)
    ensures var done := Run(st, actions);
            && Sound(done) && g < |done.gs| && done.gs[g].frames == st.gs[g].frames
            && Reads(done, st.gs[g].frames, v) == Reads(st, st.gs[g].frames, v)
    decreases |actions|
  {
    hide Sound, Step, Reads, ActsFor;
    if actions != [] {
      SoundStep(st, actions[0]);
      PopSteps(st, actions[0], g, v);
      PopRuns(Step(st, actions[0]), actions[1..], g, v);
    }
  }

  lemma PopSteps(st: State, a: Action, g: nat, v: Var)
    requires Sound(st) && g < |st.gs| && (st.gs[g].work.Popping? || st.gs[g].work.Idle?)
    requires ActsFor(a, g) ==> a.Proceed?
    ensures var next := Step(st, a);
            && (next.gs[g].work.Popping? || next.gs[g].work.Idle?) && next.gs[g].frames == st.gs[g].frames
            && Reads(next, st.gs[g].frames, v) == Reads(st, st.gs[g].frames, v)
  {
    hide CountersOk, Stamped, Unshared, Reads, StartPush, StartPop, Capture, StartReset, SetValue;
    if !ActsFor(a, g) { StepIsLocal(st, a, g); }
    ReadsKept(st, a, Stack(g), st.gs[g].frames, v);
  }

  /**
   Push (even one that panics halfway), then pop, while the others run: the goroutine's stack and what it reads
   are restored, and a counter differs only by what the others did to it.
   */
  lemma PushThenPopRestores(st: State, g: nat, es: seq<NewBinding>, actions: seq<Action>, more: seq<Action>, v: Var)
    requires Sound(st) && g < |st.gs| && st.gs[g].work.Idle? && DistinctKeys(es)
    requires OnlyProceeds(actions, g) && OnlyProceeds(more, g)
    requires var pushed := Run(Step(st, Push(g, es)), actions);
             && g < |pushed.gs| && pushed.gs[g].work.Idle?
             && var done := Run(Step(pushed, Pop(g)), more);
                g < |done.gs| && done.gs[g].work.Idle?
    ensures var start := Step(st, Push(g, es));
            var popped := Step(Run(start, actions), Pop(g));
            var done := Run(popped, more);
            && done.gs[g] == st.gs[g] && Reads(done, st.gs[g].frames, v) == Reads(st, st.gs[g].frames, v)
            && Counter(done, v) - Counter(st, v) == ByOthers(start, actions, g, v) + ByOthers(popped, more, g, v)
  {
    hide Sound, Run, Reads, ByOthers, Counter, Counted, WorkOk, Pushed, OnlyProceeds;
    var start, below := Step(st, Push(g, es)), st.gs[g].frames;
    PushStarts(st, g, es, v);
    var k := PushRuns(start, actions, g, below, es, 0, v);
    var pushed := Run(start, actions);
    var popped := Step(pushed, Pop(g));
    PopStarts(pushed, g, below, es, k, v);
    PopRuns(popped, more, g, v);
    SoundCounts(st); SoundCounts(start); SoundCounts(pushed); SoundCounts(popped);
    StepCounts(st, Push(g, es), g);
    CounterChange(start, actions, g, v);
    StepCounts(pushed, Pop(g), g);
    CounterChange(popped, more, g, v);
  }

  lemma SoundCounts(st: State)
    requires Sound(st)
    ensures CountersOk(st)
  {}

  lemma PopStarts(st: State, g: nat, below: seq<Frame>, es: seq<NewBinding>, j: nat, v: Var)
    requires Sound(st) && Pushed(st, g, below, es, j) && st.gs[g].work.Idle?
    ensures var popped := Step(st, Pop(g));
            && Sound(popped) && g < |popped.gs| && popped.gs[g].work.Popping? && popped.gs[g].frames == below
            && Reads(popped, below, v) == Reads(st, below, v)
  {
    hide Sound, Bindable, Binding;
    SoundStep(st, Pop(g));
  }

  // ---- captures and resets ----

  /** Copied frames say what the originals said. */
  lemma {:induction false} CloneReads(st: State, frames: seq<Frame>, n: nat, stamp: nat, v: Var)
    requires n <= |frames|
    ensures Reads(st.(heap := CloneHeap(st, frames, stamp)), CloneFrames(frames, stamp)[..n], v)
            == Reads(st, frames[..n], v)
  {
    hide CloneHeap, ValueOf;
    var copy := CloneFrames(frames, stamp);
    if n > 0 {
      assert frames[..n][..n - 1] == frames[..n - 1] && copy[..n][..n - 1] == copy[..n - 1];
      if v in frames[n - 1] {
        CopyHolds(st, frames, n - 1, stamp, v);
      } else {
        CloneReads(st, frames, n - 1, stamp, v);
      }
    }
  }

  lemma CopyHolds(st: State, frames: seq<Frame>, i: nat, stamp: nat, v: Var)
    requires i < |frames| && v in frames[i]
    ensures ValueOf(st.(heap := CloneHeap(st, frames, stamp)), Box(stamp, i, v)) == ValueOf(st, frames[i][v])
  {}

  lemma CopyReads(st: State, next: State, frames: seq<Frame>, v: Var)
    requires next.heap == CloneHeap(st, frames, st.clock)
    ensures Reads(next, CloneFrames(frames, st.clock), v) == Reads(st, frames, v)
  {
    hide CloneHeap, CloneFrames, Innermost;
    CloneReads(st, frames, |frames|, st.clock, v);
    assert frames[..|frames|] == frames && CloneFrames(frames, st.clock)[..|frames|] == CloneFrames(frames, st.clock);
  }

  /** A capture says what the goroutine that captured reads at that moment. */
  lemma CaptureConveys(st: State, g: nat, v: Var)
    requires g < |st.gs| && st.gs[g].frames != []
    ensures var next := Capture(st, g);
            && |next.conveyed| == |st.conveyed| + 1
            && Reads(next, next.conveyed[|st.conveyed|], v) == Reads(st, st.gs[g].frames, v)
  {
    hide Reads, CloneHeap, CloneFrames;
    CopyReads(st, Capture(st, g), st.gs[g].frames, v);
  }

  /** A reset on its way to `target`. */
  predicate Arriving(me: Goroutine, target: seq<Frame>) {
    if me.work.Leaving? then me.work.next == target else (me.work.Entering? || me.work.Idle?) && me.frames == target
  }

  lemma ResetSteps(st: State, a: Action, g: nat, target: seq<Frame>, v: Var)
    requires Sound(st) && g < |st.gs| && Arriving(st.gs[g], target) && (ActsFor(a, g) ==> a.Proceed?)
    ensures Arriving(Step(st, a).gs[g], target) && Reads(Step(st, a), target, v) == Reads(st, target, v)
  {
    hide CountersOk, Stamped, Unshared, Reads, StartPush, StartPop, Capture, StartReset, SetValue, Binds;
    if !ActsFor(a, g) { StepIsLocal(st, a, g); }
    ReadsKept(st, a, if st.gs[g].work.Leaving? then Next(g) else Stack(g), target, v);
  }

  lemma {:induction false} ResetRuns(st: State, actions: seq<Action>, g: nat, target: seq<Frame>, v: Var)
    requires Sound(st) && g < |st.gs| && Arriving(st.gs[g], target) && OnlyProceeds(actions, g)
    ensures var done := Run(st, actions);
            g < |done.gs| && Arriving(done.gs[g], target) && Reads(done, target, v) == Reads(st, target, v)
    decreases |actions|
  {
    hide Sound, Step, Reads, Arriving, ActsFor;
    if actions != [] {
      SoundStep(st, actions[0]);
      ResetSteps(st, actions[0], g, target, v);
      ResetRuns(Step(st, actions[0]), actions[1..], g, target, v);
    }
  }

  /** The frames that a reset names: captured ones, or none. */
  function Source(st: State, source: Option<nat>): seq<Frame>
    requires source.Some? ==> source.value < |st.conveyed|
  {
    if source.Some? then st.conveyed[source.value] else []
  }

  /**
   A finished reset, whatever the others did meanwhile: the goroutine reads what the named frames said, and a counter
   differs by what the others did, the goroutine's new frames and its old ones.
   */
  lemma ResetInstalls(st: State, g: nat, source: Option<nat>, actions: seq<Action>, v: Var)
    requires Sound(st) && g < |st.gs| && st.gs[g].work.Idle? && OnlyProceeds(actions, g)
    requires source.Some? ==> source.value < |st.conveyed|
    requires var done := Run(Step(st, Reset(g, source)), actions);
             g < |done.gs| && done.gs[g].work.Idle?
    ensures var start := Step(st, Reset(g, source));
            var done := Run(start, actions);
            && |done.gs[g].frames| == |Source(st, source)|
            && Reads(done, done.gs[g].frames, v) == Reads(st, Source(st, source), v)
            && Counter(done, v) - Counter(st, v) == ByOthers(start, actions, g, v)
               + FramesOf(done.gs[g].frames, v) - FramesOf(st.gs[g].frames, v)
  {
    hide Sound, Run, Reads, ByOthers, Counter, WorkOk, OnlyProceeds, FramesOf, Binds;
    var start := Step(st, Reset(g, source));
    SoundStep(st, Reset(g, source));
    var target := start.gs[g].work.next;
    ResetStarts(st, g, source, v);
    ResetRuns(start, actions, g, target, v);
    SoundCounts(st);
    SoundCounts(start);
    StepCounts(st, Reset(g, source), g);
    CounterChange(start, actions, g, v);
  }

  lemma ResetStarts(st: State, g: nat, source: Option<nat>, v: Var)
    requires g < |st.gs| && st.gs[g].work.Idle? && (source.Some? ==> source.value < |st.conveyed|)
    ensures var start := Step(st, Reset(g, source));
            && start.gs[g].work.Leaving? && |start.gs[g].work.next| == |Source(st, source)|
            && Reads(start, start.gs[g].work.next, v) == Reads(st, Source(st, source), v)
  {
    hide Binds, CloneHeap;
    if source.Some? { CopyReads(st, Step(st, Reset(g, source)), st.conveyed[source.value], v); }
  }

  /**
   Conveyance: `g` captures, everyone runs, and any goroutine `h` that then resets to the capture reads, when
   its reset is finished, what `g` read when it captured.
   */
  lemma CaptureThenResetConveys(st: State, g: nat, between: seq<Action>, h: nat, actions: seq<Action>, v: Var)
    requires Sound(st) && g < |st.gs| && st.gs[g].work.Idle? && st.gs[g].frames != [] && OnlyProceeds(actions, h)
    requires var before := Run(Step(st, Clone(g)), between);
             && h < |before.gs| && before.gs[h].work.Idle?
             && var done := Run(Step(before, Reset(h, Some(|st.conveyed|))), actions);
                h < |done.gs| && done.gs[h].work.Idle?
    ensures var done := Run(Step(Run(Step(st, Clone(g)), between), Reset(h, Some(|st.conveyed|))), actions);
            Reads(done, done.gs[h].frames, v) == Reads(st, st.gs[g].frames, v)
  {
    hide Sound, Run, Reads, Capture, OnlyProceeds;
    var c, captured := |st.conveyed|, Step(st, Clone(g));
    CaptureConveys(st, g, v);
    SoundStep(st, Clone(g));
    CapturesNeverChange(captured, between, c, v);
    SoundRun(captured, between);
    ResetInstalls(Run(captured, between), h, Some(c), actions, v);
  }
}
