/**
 Dynamic binding of Vars (`pkg/lang/var.go`): a stack of frames per goroutine, boxes that hold the
 bound values, and one atomic counter per Var that lets `Get` skip the stacks. Every atomic access
 is one step, so goroutines interleave inside a push, a pop and a frame reset.
 */
module VarBindings {
  import opened Objects

  type Var = nat
  type Value = int

  /** The identity of a box: the step that allocated it, and its place in the frames allocated by that step. */
  datatype Box = Box(stamp: nat, frame: nat, v: Var)

  type Frame = map<Var, Box>

  datatype NewBinding = NewBinding(v: Var, val: Value)

  /**
   What a goroutine is in the middle of. `Pushing` fills its top frame; `Counting` has stored a box and
   not yet counted it; `Popping` has removed a frame and still has to uncount it; `Leaving` uncounts the
   frames that a reset replaces and `Entering` counts the new ones.
   */
  datatype Work =
    | Idle
    | Pushing(todo: seq<NewBinding>)
    | Counting(v: Var, todo: seq<NewBinding>)
    | Popping(left: multiset<Var>)
    | Leaving(left: multiset<Var>, next: seq<Frame>)
    | Entering(left: multiset<Var>)

  datatype Goroutine = Goroutine(frames: seq<Frame>, work: Work)

  /** `conveyed` are the frames captured by `CloneThreadBindingFrame`, `clock` numbers the steps. */
  datatype State = State(
    gs: seq<Goroutine>,
    conveyed: seq<seq<Frame>>,
    heap: map<Box, Value>,
    counters: map<Var, int>,
    roots: map<Var, Value>,
    dynamic: set<Var>,
    clock: nat)

  datatype Action =
    | Push(g: nat, entries: seq<NewBinding>)
    | Pop(g: nat)
    | Clone(g: nat)
    | Reset(g: nat, source: Option<nat>)
    | SetBinding(g: nat, v: Var, val: Value)
    | BindRoot(v: Var, val: Value)
    | Proceed(g: nat, pick: Var)

  // ---- reading ----

  function Counter(st: State, v: Var): int { if v in st.counters then st.counters[v] else 0 }

  function UNBOUND(): Value { -1 }

  function Root(st: State, v: Var): Value { if v in st.roots then st.roots[v] else UNBOUND() }

  /** The innermost frame that binds the Var. */
  function Innermost(frames: seq<Frame>, v: Var): Option<Box>
    decreases |frames|
  {
    if frames == [] then None
    else
      var top := frames[|frames| - 1];
      if v in top then Some(top[v]) else Innermost(frames[..|frames| - 1], v)
  }

  function ValueOf(st: State, b: Box): Value { if b in st.heap then st.heap[b] else UNBOUND() }

  function GetDynamicBinding(st: State, g: nat, v: Var): Option<Box>
    requires g < |st.gs|
  {
    if Counter(st, v) == 0 then None else Innermost(st.gs[g].frames, v)
  }

  function Deref(st: State, g: nat, v: Var): Value
    requires g < |st.gs|
  {
    var b := GetDynamicBinding(st, g, v);
    if b.Some? then ValueOf(st, b.value) else Root(st, v)
  }

  function Get(st: State, g: nat, v: Var): Value
    requires g < |st.gs|
  {
    if Counter(st, v) == 0 then Root(st, v) else Deref(st, g, v)
  }

  /** What a read is meant to be: the innermost binding of this goroutine, else the root. */
  function Meaning(st: State, g: nat, v: Var): Value
    requires g < |st.gs|
  {
    var b := Innermost(st.gs[g].frames, v);
    if b.Some? then ValueOf(st, b.value) else Root(st, v)
  }

  // ---- steps ----

  /** The Vars that the frames bind, one count per frame. */
  function Binds(frames: seq<Frame>): multiset<Var> {
    if frames == [] then multiset{} else Binds(frames[..|frames| - 1]) + multiset(frames[|frames| - 1].Keys)
  }

  /** A copy of the frames in new boxes. */
  function CloneFrames(frames: seq<Frame>, stamp: nat): (r: seq<Frame>)
    ensures |r| == |frames|
    ensures forall i :: 0 <= i < |frames| ==> r[i] == map v | v in frames[i] :: Box(stamp, i, v)
  {
    seq(|frames|, i requires 0 <= i < |frames| => map v | v in frames[i] :: Box(stamp, i, v))
  }

  function CloneHeap(st: State, frames: seq<Frame>, stamp: nat): map<Box, Value> {
    st.heap + map i, v | 0 <= i < |frames| && v in frames[i] :: Box(stamp, i, v) := ValueOf(st, frames[i][v])
  }

  function Add(counters: map<Var, int>, v: Var, delta: int): map<Var, int> {
    counters[v := (if v in counters then counters[v] else 0) + delta]
  }

  predicate DistinctKeys(es: seq<NewBinding>) { forall i, j :: 0 <= i < j < |es| ==> es[i].v != es[j].v }

  function SetG(st: State, g: nat, next: Goroutine): State
    requires g < |st.gs|
  {
    st.(gs := st.gs[g := next], clock := st.clock + 1)
  }

  function StartPush(st: State, g: nat, es: seq<NewBinding>): State
    requires g < |st.gs|
  {
    SetG(st, g, Goroutine(st.gs[g].frames + [map[]], Pushing(es)))
  }

  /** `None` is a panic: popping without a frame. */
  function StartPop(st: State, g: nat): Option<State>
    requires g < |st.gs|
  {
    var frames := st.gs[g].frames;
    if frames == [] then None
    else Some(SetG(st, g, Goroutine(frames[..|frames| - 1], Popping(multiset(frames[|frames| - 1].Keys)))))
  }

  /**
   The next step of a goroutine that is in the middle of something. The loops over Go maps visit the Vars
   in any order: `pick` is the Var that comes next.
   */
  function Continue(st: State, g: nat, pick: Var): (r: State)
    requires g < |st.gs|
    ensures |r.gs| == |st.gs|
  {
    var me := st.gs[g];
    match me.work
    case Idle => st
    case Pushing(todo) =>
      if todo == [] then SetG(st, g, me.(work := Idle))
      else if todo[0].v !in st.dynamic || me.frames == [] then SetG(st, g, me.(work := Idle))  // the panic
      else
        var top := me.frames[|me.frames| - 1];
        var b := Box(st.clock, 0, todo[0].v);
        var next := me.frames[..|me.frames| - 1] + [top[todo[0].v := b]];
        SetG(st, g, Goroutine(next, Counting(todo[0].v, todo[1..]))).(heap := st.heap[b := todo[0].val])
    case Counting(v, todo) => SetG(st, g, me.(work := Pushing(todo))).(counters := Add(st.counters, v, 1))
    case Popping(left) =>
      if left == multiset{} then SetG(st, g, me.(work := Idle))
      else if pick !in left then st
      else SetG(st, g, me.(work := Popping(left - multiset{pick}))).(counters := Add(st.counters, pick, -1))
    case Leaving(left, next) =>
      if left == multiset{} then SetG(st, g, Goroutine(next, Entering(Binds(next))))
      else if pick !in left then st
      else SetG(st, g, me.(work := Leaving(left - multiset{pick}, next))).(counters := Add(st.counters, pick, -1))
    case Entering(left) =>
      if left == multiset{} then SetG(st, g, me.(work := Idle))
      else if pick !in left then st
      else SetG(st, g, me.(work := Entering(left - multiset{pick}))).(counters := Add(st.counters, pick, 1))
  }

  /** `CloneThreadBindingFrame`: without any frame it returns nil, and nothing is captured. */
  function Capture(st: State, g: nat): State
    requires g < |st.gs|
  {
    var frames := st.gs[g].frames;
    if frames == [] then st
    else st.(conveyed := st.conveyed + [CloneFrames(frames, st.clock)], heap := CloneHeap(st, frames, st.clock),
      clock := st.clock + 1)
  }

  /** `ResetThreadBindingFrame`: the captured frames are copied again; nil removes all frames. */
  function StartReset(st: State, g: nat, source: Option<nat>): State
    requires g < |st.gs|
  {
    var me := st.gs[g];
    if source.None? then SetG(st, g, me.(work := Leaving(Binds(me.frames), [])))
    else if source.value >= |st.conveyed| then st
    else
      var frames := st.conveyed[source.value];
      SetG(st, g, me.(work := Leaving(Binds(me.frames), CloneFrames(frames, st.clock)))).(heap := CloneHeap(st,
        frames, st.clock))
  }

  /** `Set`: `None` is the panic without a binding of this goroutine. */
  function SetValue(st: State, g: nat, v: Var, val: Value): Option<State>
    requires g < |st.gs|
  {
    var b := GetDynamicBinding(st, g, v);
    if b.None? then None else Some(st.(heap := st.heap[b.value := val]))
  }

  function Step(st: State, a: Action): (r: State)
    ensures |r.gs| == |st.gs|
  {
    match a
    case BindRoot(v, val) => st.(roots := st.roots[v := val])
    case Proceed(g, pick) => if g < |st.gs| then Continue(st, g, pick) else st
    case Push(g, es) => if g < |st.gs| && st.gs[g].work.Idle? && DistinctKeys(es) then StartPush(st, g, es) else st
    case Pop(g) =>
      if g < |st.gs| && st.gs[g].work.Idle? && StartPop(st, g).Some? then StartPop(st, g).value else st
    case Clone(g) => if g < |st.gs| && st.gs[g].work.Idle? then Capture(st, g) else st
    case Reset(g, source) => if g < |st.gs| && st.gs[g].work.Idle? then StartReset(st, g, source) else st
    case SetBinding(g, v, val) =>
      if g < |st.gs| && st.gs[g].work.Idle? && SetValue(st, g, v, val).Some? then SetValue(st, g, v, val).value else st
  }

  function Run(st: State, actions: seq<Action>): State
    decreases |actions|
  {
    if actions == [] then st else Run(Step(st, actions[0]), actions[1..])
  }

  function Fresh(goroutines: nat, dynamic: set<Var>): State {
    State(seq(goroutines, i => Goroutine([], Idle)), [], map[], map[], map[], dynamic, 0)
  }

  // ---- the counters count frames ----

  function FramesOf(frames: seq<Frame>, v: Var): nat {
    if frames == [] then 0
    else FramesOf(frames[..|frames| - 1], v) + (if v in frames[|frames| - 1] then 1 else 0)
  }

  /** How often the counter of `v` already includes the frames of a goroutine. */
  function Counted(g: Goroutine, v: Var): int {
    match g.work
    case Counting(w, _) => FramesOf(g.frames, v) - (if v == w then 1 else 0)
    case Popping(left) => FramesOf(g.frames, v) + left[v]
    case Leaving(left, _) => left[v]
    case Entering(left) => FramesOf(g.frames, v) - left[v]
    case _ => FramesOf(g.frames, v)
  }

  function Total(gs: seq<Goroutine>, v: Var): int {
    if gs == [] then 0 else Total(gs[..|gs| - 1], v) + Counted(gs[|gs| - 1], v)
  }

  predicate Unbound(todo: seq<NewBinding>, frames: seq<Frame>) {
    frames != [] && DistinctKeys(todo) && forall i :: 0 <= i < |todo| ==> todo[i].v !in frames[|frames| - 1]
  }

  /** Work that is in progress fits the frames. */
  predicate WorkOk(g: Goroutine) {
    match g.work
    case Pushing(todo) => Unbound(todo, g.frames)
    case Counting(v, todo) => Unbound(todo, g.frames) && v in g.frames[|g.frames| - 1]
    case Entering(left) => left <= Binds(g.frames)
    case _ => true
  }

  ghost predicate CountersOk(st: State) {
    && (forall v :: Counter(st, v) == Total(st.gs, v))
    && (forall i :: 0 <= i < |st.gs| ==> WorkOk(st.gs[i]))
  }

  lemma {:induction false} TotalUpdate(gs: seq<Goroutine>, i: nat, g: Goroutine, v: Var)
    requires i < |gs|
    ensures Total(gs[i := g], v) == Total(gs, v) - Counted(gs[i], v) + Counted(g, v)
  {
    hide Counted;
    var n := |gs| - 1;
    if i < n {
      TotalUpdate(gs[..n], i, g, v);
      assert gs[i := g][..n] == gs[..n][i := g];
    } else {
      assert gs[i := g][..n] == gs[..n];
    }
  }

  lemma {:induction false} CountBinds(frames: seq<Frame>, v: Var)
    ensures Binds(frames)[v] == FramesOf(frames, v)
  {
    if frames != [] { CountBinds(frames[..|frames| - 1], v); }
  }

  lemma FramesTop(frames: seq<Frame>, top: Frame, v: Var)
    ensures FramesOf(frames + [top], v) == FramesOf(frames, v) + (if v in top then 1 else 0)
  {
    assert (frames + [top])[..|frames|] == frames;
  }

  lemma CountedIsNatural(g: Goroutine, v: Var)
    requires WorkOk(g)
    ensures Counted(g, v) >= 0
  {
    CountBinds(g.frames, v);
  }

  lemma {:induction false} TotalIncludes(gs: seq<Goroutine>, i: nat, v: Var)
    requires i < |gs| && forall j :: 0 <= j < |gs| ==> WorkOk(gs[j])
    ensures 0 <= Counted(gs[i], v) <= Total(gs, v)
  {
    hide Counted, WorkOk;
    var n := |gs| - 1;
    CountedIsNatural(gs[n], v);
    CountedIsNatural(gs[i], v);
    if i < n { TotalIncludes(gs[..n], i, v); } else { TotalIsNatural(gs[..n], v); }
  }

  lemma {:induction false} TotalIsNatural(gs: seq<Goroutine>, v: Var)
    requires forall j :: 0 <= j < |gs| ==> WorkOk(gs[j])
    ensures Total(gs, v) >= 0
  {
    hide Counted, WorkOk;
    if gs != [] {
      TotalIsNatural(gs[..|gs| - 1], v);
      CountedIsNatural(gs[|gs| - 1], v);
    }
  }

  /** A step of one goroutine: its counted frames change by exactly what the counter changes by. */
  ghost predicate InStep(st: State, next: State, g: nat)
    requires g < |st.gs|
  {
    && |next.gs| == |st.gs| && next.gs == st.gs[g := next.gs[g]]
    && WorkOk(next.gs[g])
    && forall v :: Counter(next, v) - Counter(st, v) == Counted(next.gs[g], v) - Counted(st.gs[g], v)
  }

  lemma CountersInStep(st: State, next: State, g: nat)
    requires CountersOk(st) && g < |st.gs| && InStep(st, next, g)
    ensures CountersOk(next)
  {
    hide WorkOk, Counted, Total;
    forall v ensures Counter(next, v) == Total(next.gs, v) {
      TotalUpdate(st.gs, g, next.gs[g], v);
    }
  }

  /** Binding a new Var in the top frame. */
  lemma PushedFrames(frames: seq<Frame>, w: Var, b: Box)
    requires frames != [] && w !in frames[|frames| - 1]
    ensures var n := |frames| - 1;
            forall v :: FramesOf(frames[..n] + [frames[n][w := b]], v) == FramesOf(frames, v)
                + (if v == w then 1 else 0)
  {
    hide FramesOf;
    var n := |frames| - 1;
    assert frames == frames[..n] + [frames[n]];
    forall v ensures FramesOf(frames[..n] + [frames[n][w := b]], v) == FramesOf(frames, v) + (if v == w then 1 else 0) {
      FramesTop(frames[..n], frames[n][w := b], v);
      FramesTop(frames[..n], frames[n], v);
    }
  }

  lemma PushingInStep(st: State, g: nat, pick: Var)
    requires g < |st.gs| && WorkOk(st.gs[g]) && st.gs[g].work.Pushing?
    ensures InStep(st, Continue(st, g, pick), g)
  {
    hide FramesOf, Binds;
    var me := st.gs[g];
    if me.work.todo != [] { PushedFrames(me.frames, me.work.todo[0].v, Box(st.clock, 0, me.work.todo[0].v)); }
  }

  lemma CountingInStep(st: State, g: nat, pick: Var)
    requires g < |st.gs| && WorkOk(st.gs[g]) && st.gs[g].work.Counting?
    ensures InStep(st, Continue(st, g, pick), g)
  {
    hide FramesOf;
  }

  lemma PoppingInStep(st: State, g: nat, pick: Var)
    requires g < |st.gs| && WorkOk(st.gs[g]) && (st.gs[g].work.Popping? || st.gs[g].work.Idle?)
    ensures InStep(st, Continue(st, g, pick), g)
  {
    hide FramesOf, Binds;
  }

  lemma LeavingInStep(st: State, g: nat, pick: Var)
    requires g < |st.gs| && WorkOk(st.gs[g]) && st.gs[g].work.Leaving?
    ensures InStep(st, Continue(st, g, pick), g)
  {
    hide FramesOf, Binds;
    var next := st.gs[g].work.next;
    forall v ensures Binds(next)[v] == FramesOf(next, v) { CountBinds(next, v); }
  }

  lemma EnteringInStep(st: State, g: nat, pick: Var)
    requires g < |st.gs| && WorkOk(st.gs[g]) && st.gs[g].work.Entering?
    ensures InStep(st, Continue(st, g, pick), g)
  {
    hide FramesOf, Binds;
  }

  lemma PushInStep(st: State, g: nat, a: Action)
    requires g < |st.gs| && WorkOk(st.gs[g]) && st.gs[g].work.Idle? && a.Push? && a.g == g
    ensures InStep(st, Step(st, a), g)
  {
    hide Binds, FramesOf;
    var frames := st.gs[g].frames;
    forall v ensures FramesOf(frames + [map[]], v) == FramesOf(frames, v) { FramesTop(frames, map[], v); }
  }

  lemma PopInStep(st: State, g: nat, a: Action)
    requires g < |st.gs| && WorkOk(st.gs[g]) && st.gs[g].work.Idle? && a.Pop? && a.g == g
    ensures InStep(st, Step(st, a), g)
  {
    hide Binds, FramesOf;
    var frames := st.gs[g].frames;
    if frames != [] {
      var init, top := frames[..|frames| - 1], frames[|frames| - 1];
      assert init + [top] == frames;
      forall v
        ensures FramesOf(frames, v) == FramesOf(init, v) + (if v in top then 1 else 0)
      {
        FramesTop(init, top, v);
      }
    }
  }

  lemma ResetInStep(st: State, g: nat, a: Action)
    requires g < |st.gs| && WorkOk(st.gs[g]) && st.gs[g].work.Idle? && a.Reset? && a.g == g
    ensures InStep(st, Step(st, a), g)
  {
    hide Binds, CloneFrames, CloneHeap, FramesOf;
    var frames := st.gs[g].frames;
    forall v ensures Binds(frames)[v] == FramesOf(frames, v) { CountBinds(frames, v); }
  }

  /** Every step of every goroutine keeps the counters right. */
  lemma CountersStep(st: State, a: Action)
    requires CountersOk(st)
    ensures CountersOk(Step(st, a))
  {
    hide WorkOk, Counted, Total, Continue, StartPush, StartPop, StartReset, CloneFrames, CloneHeap, InStep;
    match a
    case Proceed(g, pick) =>
      if g < |st.gs| {
        match st.gs[g].work {
          case Pushing(_) => PushingInStep(st, g, pick);
          case Counting(_, _) => CountingInStep(st, g, pick);
          case Leaving(_, _) => LeavingInStep(st, g, pick);
          case Entering(_) => EnteringInStep(st, g, pick);
          case _ => PoppingInStep(st, g, pick);
        }
        CountersInStep(st, Continue(st, g, pick), g);
      }
    case Push(g, _) =>
      if g < |st.gs| && st.gs[g].work.Idle? {
        PushInStep(st, g, a);
        CountersInStep(st, Step(st, a), g);
      }
    case Pop(g) =>
      if g < |st.gs| && st.gs[g].work.Idle? {
        PopInStep(st, g, a);
        CountersInStep(st, Step(st, a), g);
      }
    case Reset(g, _) =>
      if g < |st.gs| && st.gs[g].work.Idle? {
        ResetInStep(st, g, a);
        CountersInStep(st, Step(st, a), g);
      }
    case _ =>
  }

  function Frames(gs: seq<Goroutine>, v: Var): nat {
    if gs == [] then 0 else Frames(gs[..|gs| - 1], v) + FramesOf(gs[|gs| - 1].frames, v)
  }

  /** Between operations, the counter of every Var is the number of frames that bind it, over all goroutines. */
  lemma CountersCountFrames(st: State, v: Var)
    requires CountersOk(st) && forall i :: 0 <= i < |st.gs| ==> st.gs[i].work.Idle?
    ensures Counter(st, v) == Frames(st.gs, v)
  {
    CountFrames(st.gs, v);
  }

  lemma {:induction false} CountFrames(gs: seq<Goroutine>, v: Var)
    requires forall i :: 0 <= i < |gs| ==> gs[i].work.Idle?
    ensures Total(gs, v) == Frames(gs, v)
  {
    if gs != [] { CountFrames(gs[..|gs| - 1], v); }
  }

  /** The fast path of `Get` never hides a binding, whatever the other goroutines are in the middle of. */
  lemma GetIsInnermostElseRoot(st: State, g: nat, v: Var)
    requires CountersOk(st) && g < |st.gs| && st.gs[g].work.Idle?
    ensures Get(st, g, v) == Deref(st, g, v) == Meaning(st, g, v)
  {
    hide Total;
    TotalIncludes(st.gs, g, v);
    BoundIsCounted(st.gs[g].frames, v);
  }

  lemma {:induction false} BoundIsCounted(frames: seq<Frame>, v: Var)
    ensures Innermost(frames, v).Some? <==> FramesOf(frames, v) > 0
  {
    if frames != [] { BoundIsCounted(frames[..|frames| - 1], v); }
  }

  lemma {:induction false} RunKeepsCounters(st: State, actions: seq<Action>)
    requires CountersOk(st)
    ensures CountersOk(Run(st, actions))
    decreases |actions|
  {
    hide Step, CountersOk;
    if actions != [] {
      CountersStep(st, actions[0]);
      RunKeepsCounters(Step(st, actions[0]), actions[1..]);
    }
  }

  lemma {:induction false} FreshTotal(gs: seq<Goroutine>, v: Var)
    requires forall i :: 0 <= i < |gs| ==> gs[i] == Goroutine([], Idle)
    ensures Total(gs, v) == 0
  {
    if gs != [] { FreshTotal(gs[..|gs| - 1], v); }
  }

  /** At every step of every run: reads by a goroutine that is not inside an operation. */
  lemma ReadsInEveryRun(n: nat, dynamic: set<Var>, actions: seq<Action>, g: nat, v: Var)
    requires var st := Run(Fresh(n, dynamic), actions);
             g < |st.gs| && st.gs[g].work.Idle?
    ensures var st := Run(Fresh(n, dynamic), actions);
            CountersOk(st) && Get(st, g, v) == Meaning(st, g, v)
  {
    hide Run, CountersOk, Get, Meaning;
    FreshOk(n, dynamic);
    RunKeepsCounters(Fresh(n, dynamic), actions);
    GetIsInnermostElseRoot(Run(Fresh(n, dynamic), actions), g, v);
  }

  lemma FreshOk(n: nat, dynamic: set<Var>)
    ensures CountersOk(Fresh(n, dynamic))
  {
    forall v ensures Total(Fresh(n, dynamic).gs, v) == 0 { FreshTotal(Fresh(n, dynamic).gs, v); }
  }

  // ---- boxes are not shared ----

  /** A goroutine's stack, the frames that a reset is about to install, or a captured frame list. */
  datatype Place = Stack(g: nat) | Next(g: nat) | Conveyed(c: nat)

  function StoreAt(st: State, p: Place): seq<Frame> {
    match p
    case Stack(g) => if g < |st.gs| then st.gs[g].frames else []
    case Next(g) => if g < |st.gs| && st.gs[g].work.Leaving? then st.gs[g].work.next else []
    case Conveyed(c) => if c < |st.conveyed| then st.conveyed[c] else []
  }

  function BoxAt(st: State, p: Place, i: nat, v: Var): Option<Box> {
    var frames := StoreAt(st, p);
    if i < |frames| && v in frames[i] then Some(frames[i][v]) else None
  }

  ghost predicate Stamped(st: State) {
    forall p, i, v :: BoxAt(st, p, i, v).Some? ==>
        BoxAt(st, p, i, v).value.v == v && BoxAt(st, p, i, v).value.stamp < st.clock
  }

  /** No box is in two places. */
  ghost predicate Unshared(st: State) {
    forall p, i, v, q, j ::
      BoxAt(st, p, i, v).Some? && BoxAt(st, p, i, v) == BoxAt(st, q, j, v) ==> p == q && i == j
  }

  /**
   Where the boxes of the next state come from: all new ones are at `p0`, in the frame that `at` gives or
   (a copy) in the frame they are numbered with; the others were there before, or move from `Next(g)` to `Stack(g)`.
   */
  ghost predicate BoxesFrom(st: State, next: State, p0: Place, at: Option<nat>, moved: Option<nat>) {
    next.clock >= st.clock && forall p, i, v :: BoxFrom(st, next, p0, at, moved, p, i, v)
  }

  predicate BoxFrom(st: State, next: State, p0: Place, at: Option<nat>, moved: Option<nat>, p: Place, i: nat, v: Var) {
    var now := BoxAt(next, p, i, v);
    now.Some? ==>
      if now.value.stamp == st.clock then
        next.clock > st.clock && now.value.v == v && p == p0
          && (if at.Some? then i == at.value else i == now.value.frame)
      else BoxAt(st, Origin(p, moved), i, v) == now && (moved.Some? ==> p != Next(moved.value))
  }

  function Origin(p: Place, moved: Option<nat>): Place {
    if moved.Some? && p == Stack(moved.value) then Next(moved.value) else p
  }

  lemma BoxesStayUnshared(st: State, next: State, p0: Place, at: Option<nat>, moved: Option<nat>)
    requires Stamped(st) && Unshared(st) && BoxesFrom(st, next, p0, at, moved)
    ensures Stamped(next) && Unshared(next)
  {
    hide BoxAt;
    forall p, i, v | BoxAt(next, p, i, v).Some?
      ensures BoxAt(next, p, i, v).value.v == v && BoxAt(next, p, i, v).value.stamp < next.clock
    {
      assert BoxFrom(st, next, p0, at, moved, p, i, v);
    }
    forall p, i, v, q, j | BoxAt(next, p, i, v).Some? && BoxAt(next, p, i, v) == BoxAt(next, q, j, v)
      ensures p == q && i == j
    {
      assert BoxFrom(st, next, p0, at, moved, p, i, v) && BoxFrom(st, next, p0, at, moved, q, j, v);
    }
  }

  lemma PushBoxes(st: State, g: nat, es: seq<NewBinding>)
    requires Stamped(st) && g < |st.gs| && st.gs[g].work.Idle?
    ensures BoxesFrom(st, StartPush(st, g, es), Stack(g), None, None)
  {
    hide CloneHeap, Binds;
    forall p, i, v ensures BoxFrom(st, StartPush(st, g, es), Stack(g), None, None, p, i, v) {
      assert BoxAt(StartPush(st, g, es), p, i, v) == BoxAt(st, p, i, v);
    }
  }

  lemma PopBoxes(st: State, g: nat)
    requires Stamped(st) && g < |st.gs| && st.gs[g].work.Idle? && StartPop(st, g).Some?
    ensures BoxesFrom(st, StartPop(st, g).value, Stack(g), None, None)
  {
    hide CloneHeap, Binds;
    forall p, i, v ensures BoxFrom(st, StartPop(st, g).value, Stack(g), None, None, p, i, v) {
      assert BoxAt(StartPop(st, g).value, p, i, v).Some? ==>
          BoxAt(StartPop(st, g).value, p, i, v) == BoxAt(st, p, i, v);
    }
  }

  lemma CaptureBoxes(st: State, g: nat)
    requires Stamped(st) && g < |st.gs|
    ensures BoxesFrom(st, Capture(st, g), Conveyed(|st.conveyed|), None, None)
  {
    hide CloneHeap, Binds;
    forall p, i, v ensures BoxFrom(st, Capture(st, g), Conveyed(|st.conveyed|), None, None, p, i, v) {}
  }

  lemma ResetBoxes(st: State, g: nat, source: Option<nat>)
    requires Stamped(st) && g < |st.gs| && st.gs[g].work.Idle?
    ensures BoxesFrom(st, StartReset(st, g, source), Next(g), None, None)
  {
    hide CloneHeap, Binds;
    forall p, i, v ensures BoxFrom(st, StartReset(st, g, source), Next(g), None, None, p, i, v) {
      assert p != Next(g) ==> BoxAt(StartReset(st, g, source), p, i, v) == BoxAt(st, p, i, v);
    }
  }

  lemma ContinueBoxes(st: State, g: nat, pick: Var)
    requires Stamped(st) && g < |st.gs|
    ensures var me := st.gs[g];
            BoxesFrom(st, Continue(st, g, pick), Stack(g), Some(if me.frames == [] then 0 else |me.frames| - 1),
                      if me.work.Leaving? && me.work.left == multiset{} then Some(g) else None)
  {
    hide Binds, BoxFrom;
    var me := st.gs[g];
    var next := Continue(st, g, pick);
    var at := Some(if me.frames == [] then 0 else |me.frames| - 1);
    if me.work.Leaving? && me.work.left == multiset{} {
      forall p, i, v ensures BoxFrom(st, next, Stack(g), at, Some(g), p, i, v) { ArriveBox(st, g, pick, at, p, i, v); }
    } else if me.work.Pushing? && me.work.todo != [] && me.work.todo[0].v in st.dynamic && me.frames != [] {
      forall p, i, v ensures BoxFrom(st, next, Stack(g), at, None, p, i, v) { StoreBox(st, g, pick, p, i, v); }
    } else {
      forall p, i, v ensures BoxFrom(st, next, Stack(g), at, None, p, i, v) { StayBox(st, g, pick, at, p, i, v); }
    }
  }

  lemma ArriveBox(st: State, g: nat, pick: Var, at: Option<nat>, p: Place, i: nat, v: Var)
    requires Stamped(st) && g < |st.gs| && st.gs[g].work.Leaving? && st.gs[g].work.left == multiset{}
    ensures BoxFrom(st, Continue(st, g, pick), Stack(g), at, Some(g), p, i, v)
  {
    hide Binds;
    assert BoxAt(Continue(st, g, pick), p, i, v).Some? ==>
        BoxAt(st, Origin(p, Some(g)), i, v) == BoxAt(Continue(st, g, pick), p, i, v);
  }

  lemma StoreBox(st: State, g: nat, pick: Var, p: Place, i: nat, v: Var)
    requires Stamped(st) && g < |st.gs| && st.gs[g].work.Pushing? && st.gs[g].work.todo != []
    requires st.gs[g].work.todo[0].v in st.dynamic && st.gs[g].frames != []
    ensures BoxFrom(st, Continue(st, g, pick), Stack(g), Some(|st.gs[g].frames| - 1), None, p, i, v)
  {
    var next := Continue(st, g, pick);
    if p != Stack(g) || i != |st.gs[g].frames| - 1 || v != st.gs[g].work.todo[0].v {
      assert BoxAt(next, p, i, v) == BoxAt(st, p, i, v);
    }
  }

  lemma StayBox(st: State, g: nat, pick: Var, at: Option<nat>, p: Place, i: nat, v: Var)
    requires Stamped(st) && g < |st.gs|
    requires var me := st.gs[g];
             !(me.work.Leaving? && me.work.left == multiset{})
             && !(me.work.Pushing? && me.work.todo != [] && me.work.todo[0].v in st.dynamic && me.frames != [])
    ensures BoxFrom(st, Continue(st, g, pick), Stack(g), at, None, p, i, v)
  {
    hide Binds;
    assert BoxAt(Continue(st, g, pick), p, i, v) == BoxAt(st, p, i, v);
  }

  lemma StepBoxes(st: State, a: Action) returns (p0: Place, at: Option<nat>, moved: Option<nat>)
    requires Stamped(st)
    ensures BoxesFrom(st, Step(st, a), p0, at, moved)
  {
    hide Stamped, BoxesFrom, StartPush, StartPop, Capture, StartReset, Continue;
    p0, at, moved := Conveyed(|st.conveyed|), None, None;
    SameBoxes(st, Step(st, a), p0);
    match a
    case Push(g, es) =>
      if g < |st.gs| && st.gs[g].work.Idle? && DistinctKeys(es) {
        p0 := Stack(g);
        PushBoxes(st, g, es);
      }
    case Pop(g) =>
      if g < |st.gs| && st.gs[g].work.Idle? && StartPop(st, g).Some? {
        p0 := Stack(g);
        PopBoxes(st, g);
      }
    case Clone(g) => if g < |st.gs| && st.gs[g].work.Idle? { CaptureBoxes(st, g); }
    case Reset(g, source) =>
      if g < |st.gs| && st.gs[g].work.Idle? {
        p0 := Next(g);
        ResetBoxes(st, g, source);
      }
    case Proceed(g, pick) =>
      if g < |st.gs| {
        var me := st.gs[g];
        p0, at := Stack(g), Some(if me.frames == [] then 0 else |me.frames| - 1);
        moved := if me.work.Leaving? && me.work.left == multiset{} then Some(g) else None;
        ContinueBoxes(st, g, pick);
      }
    case _ =>
  }

  lemma SameBoxes(st: State, next: State, p0: Place)
    requires Stamped(st)
    ensures next.gs == st.gs && next.conveyed == st.conveyed && next.clock == st.clock ==>
            BoxesFrom(st, next, p0, None, None)
  {
    if next.gs == st.gs && next.conveyed == st.conveyed && next.clock == st.clock {
      forall p, i, v
        ensures BoxFrom(st, next, p0, None, None, p, i, v)
      {
        assert BoxAt(next, p, i, v) == BoxAt(st, p, i, v);
      }
    }
  }

  lemma UnsharedStep(st: State, a: Action)
    requires Stamped(st) && Unshared(st)
    ensures Stamped(Step(st, a)) && Unshared(Step(st, a))
  {
    hide Stamped, Unshared, Step, BoxesFrom;
    var p0, at, moved := StepBoxes(st, a);
    BoxesStayUnshared(st, Step(st, a), p0, at, moved);
  }

  lemma {:induction false} RunKeepsUnshared(st: State, actions: seq<Action>)
    requires Stamped(st) && Unshared(st)
    ensures Stamped(Run(st, actions)) && Unshared(Run(st, actions))
    decreases |actions|
  {
    hide Stamped, Unshared, Step;
    if actions != [] {
      UnsharedStep(st, actions[0]);
      RunKeepsUnshared(Step(st, actions[0]), actions[1..]);
    }
  }

  /** In every run, a captured frame list shares no box with any stack, and no two stacks share one. */
  lemma ConveyedFramesShareNoBoxes(n: nat, dynamic: set<Var>, actions: seq<Action>, p: Place, i: nat, v: Var,
          q: Place, j: nat)
    requires p != q
    ensures var st := Run(Fresh(n, dynamic), actions);
            BoxAt(st, p, i, v).Some? ==> BoxAt(st, p, i, v) != BoxAt(st, q, j, v)
  {
    hide Run;
    RunKeepsUnshared(Fresh(n, dynamic), actions);
  }

  /** `Set` is seen by the goroutine that set, and by nobody else. */
  lemma SetIsLocal(st: State, g: nat, v: Var, val: Value, h: nat, w: Var)
    requires CountersOk(st) && Unshared(st) && Stamped(st) && g < |st.gs| && h < |st.gs| && st.gs[g].work.Idle?
    requires SetValue(st, g, v, val).Some?
    ensures var next := SetValue(st, g, v, val).value;
            Meaning(next, h, w) == if h == g && w == v then val else Meaning(st, h, w)
  {
    hide CountersOk;
    InnermostIsAt(st, g, v);
    InnermostIsAt(st, h, w);
  }

  lemma InnermostIsAt(st: State, g: nat, v: Var)
    requires g < |st.gs|
    ensures Innermost(st.gs[g].frames, v).Some? ==>
              exists i :: BoxAt(st, Stack(g), i, v) == Innermost(st.gs[g].frames, v)
  {
    if Innermost(st.gs[g].frames, v).Some? {
      var i := InnermostIndex(st.gs[g].frames, v);
      assert BoxAt(st, Stack(g), i, v) == Innermost(st.gs[g].frames, v);
    }
  }

  lemma {:induction false} InnermostIndex(frames: seq<Frame>, v: Var) returns (i: nat)
    requires Innermost(frames, v).Some?
    ensures i < |frames| && v in frames[i] && Innermost(frames, v) == Some(frames[i][v])
    decreases |frames|
  {
    if v in frames[|frames| - 1] { i := |frames| - 1; } else { i := InnermostIndex(frames[..|frames| - 1], v); }
  }
}
