/**
 Atoms (`pkg/lang/atom.go`): an atomic pointer to a box, and operations that load it, compute, and
 compare-and-swap. Each atomic access is one step; goroutines interleave between the steps.
 */
module Atoms {
  import opened Objects

  /** Equality of `Object`s is identity, as `Identical` compares them. */
  type Value = Object

  /** The validator and whether there are watches, fixed for the run; without a validator everything is valid. */
  datatype Config = Config(valid: Value -> bool, watched: bool)

  /** `seen` is how many installs there had been when `box` was loaded. */
  datatype Work =
    | Idle
    | Starting(f: Value -> Value)
    | Swapping(f: Value -> Value, box: nat, seen: nat)
    | Comparing(expected: Value, newv: Value, box: nat, seen: nat)
    | Resetting(newv: Value)
    | Keeping(newv: Value, box: nat, seen: nat)
    | Replacing(newv: Value)
    | Notifying(before: Value, after: Value, result: Result)
    | Done(result: Result)
    | Panicked

  datatype Result = Returned(v: Value) | Answer(b: bool)

  /** `boxes` are all boxes ever allocated, `installed` those that the pointer has held, in order. */
  datatype State = State(boxes: seq<Value>, installed: seq<nat>, threads: seq<Work>, notified: seq<(Value, Value)>)

  datatype Action =
    | Swap(t: nat, f: Value -> Value)
    | CompareAndSet(t: nat, expected: Value, newv: Value)
    | Reset(t: nat, newv: Value)
    | Proceed(t: nat)

  function WorkOf(st: State, t: nat): Work { if t < |st.threads| then st.threads[t] else Idle }

  predicate Free(w: Work) { w.Idle? || w.Done? || w.Panicked? }

  predicate WellFormed(st: State) {
    st.installed != [] && forall i :: 0 <= i < |st.installed| ==> st.installed[i] < |st.boxes|
  }

  function Current(st: State): nat
    requires WellFormed(st)
  {
    st.installed[|st.installed| - 1]
  }

  /** What `Deref` reads. */
  function Deref(st: State): Value
    requires WellFormed(st)
  {
    st.boxes[Current(st)]
  }

  function Set(st: State, t: nat, w: Work): State {
    if t < |st.threads| then st.(threads := st.threads[t := w]) else st
  }

  /** `NewBox`, then the pointer is set to it. */
  function Install(st: State, v: Value): State {
    st.(boxes := st.boxes + [v], installed := st.installed + [|st.boxes|])
  }

  /** A new box is allocated even if the swap then fails. */
  function Allocate(st: State, v: Value): State { st.(boxes := st.boxes + [v]) }

  /** After an install the watches, if there are any, are still to be notified. */
  function Installed(c: Config, t: nat, before: Value, after: Value, result: Result): Work {
    if c.watched then Notifying(before, after, result) else Done(result)
  }

  /** `compareAndSetBox`: `again` is where the operation goes if the pointer has moved. */
  function CompareAndSetBox(c: Config, st: State, t: nat, box: nat, newv: Value, result: Result, again: Work): State
    requires WellFormed(st) && box < |st.boxes|
  {
    if st.boxes[box] == newv && !c.watched then
      if Current(st) == box then Set(st, t, Done(result)) else Set(st, t, again)
    else if Current(st) == box then Set(Install(st, newv), t, Installed(c, t, st.boxes[box], newv, result))
    else Set(Allocate(st, newv), t, again)
  }

  function Step(c: Config, st: State, a: Action): State
    requires Inv(c, st)
  {
    match a
    case Swap(t, f) => if Free(WorkOf(st, t)) then Set(st, t, Starting(f)) else st
    case CompareAndSet(t, expected, newv) =>
      if !Free(WorkOf(st, t)) then st
      else if Deref(st) != expected then Set(st, t, Done(Answer(false)))
      else Set(st, t, Comparing(expected, newv, Current(st), |st.installed|))
    case Reset(t, newv) =>
      if !Free(WorkOf(st, t)) then st
      else if !c.valid(newv) then Set(st, t, Panicked)
      else Set(st, t, Resetting(newv))
    case Proceed(t) =>
      match WorkOf(st, t)
      case Starting(f) => Set(st, t, Swapping(f, Current(st), |st.installed|))
      case Swapping(f, box, _) =>
        var nw := f(st.boxes[box]);
        if !c.valid(nw) then Set(st, t, Panicked)
        else CompareAndSetBox(c, st, t, box, nw, Returned(nw), Starting(f))
      case Comparing(_, newv, box, _) =>
        if !c.valid(newv) then Set(st, t, Panicked)
        else CompareAndSetBox(c, st, t, box, newv, Answer(true), Done(Answer(false)))
      case Resetting(newv) =>
        if Deref(st) == newv && !c.watched then Set(st, t, Keeping(newv, Current(st), |st.installed|))
            else Set(st, t, Replacing(newv))
      case Keeping(newv, box, _) =>
        if Current(st) == box then Set(st, t, Done(Returned(newv))) else Set(st, t, Resetting(newv))
      case Replacing(newv) => Set(Install(st, newv), t, Installed(c, t, Deref(st), newv, Returned(newv)))
      case Notifying(before, after, result) =>
        Set(st.(notified := st.notified + [(before, after)]), t, Done(result))
      case _ => st
  }

  function Run(c: Config, st: State, actions: seq<Action>): State
    requires Inv(c, st)
    ensures Inv(c, Run(c, st, actions))
    decreases |actions|
  {
    if actions == [] then st
    else
      StepKeepsInv(c, st, actions[0]);
      Run(c, Step(c, st, actions[0]), actions[1..])
  }

  function Fresh(c: Config, v: Value, n: nat): (st: State)
    ensures Inv(c, st) && Deref(st) == v
  {
    State([v], [0], seq(n, _ => Idle), [])
  }

  // ---- the install history ----

  function History(st: State): seq<Value>
    requires WellFormed(st)
  {
    seq(|st.installed|, i requires 0 <= i < |st.installed| => st.boxes[st.installed[i]])
  }

  function Pairs(h: seq<Value>): multiset<(Value, Value)> {
    if |h| < 2 then multiset{} else Pairs(h[..|h| - 1]) + multiset{(h[|h| - 2], h[|h| - 1])}
  }

  function Owed(w: Work): multiset<(Value, Value)> {
    if w.Notifying? then multiset{(w.before, w.after)} else multiset{}
  }

  /** The notifications that are still to be made. */
  function Pending(threads: seq<Work>): multiset<(Value, Value)> {
    if threads == [] then multiset{} else Pending(threads[..|threads| - 1]) + Owed(threads[|threads| - 1])
  }

  predicate LoadOk(st: State, box: nat, seen: nat)
    requires WellFormed(st)
  {
    0 < seen <= |st.installed| && st.installed[seen - 1] == box
  }

  predicate WorkOk(c: Config, st: State, w: Work)
    requires WellFormed(st)
  {
    match w
    case Swapping(_, box, seen) => LoadOk(st, box, seen)
    case Comparing(expected, _, box, seen) => LoadOk(st, box, seen) && st.boxes[box] == expected
    case Resetting(newv) => c.valid(newv)
    case Keeping(newv, box, seen) => LoadOk(st, box, seen) && st.boxes[box] == newv && c.valid(newv) && !c.watched
    case Replacing(newv) => c.valid(newv)
    case Notifying(_, _, _) => c.watched
    case _ => true
  }

  /** Boxes are installed in the order of their allocation, so none is ever installed again. */
  ghost predicate Inv(c: Config, st: State) {
    && WellFormed(st)
    && (forall i, j :: 0 <= i < j < |st.installed| ==> st.installed[i] < st.installed[j])
    && (forall t :: 0 <= t < |st.threads| ==> WorkOk(c, st, st.threads[t]))
  }

  lemma SetInv(c: Config, st: State, t: nat, w: Work)
    requires Inv(c, st) && WorkOk(c, st, w)
    ensures Inv(c, Set(st, t, w))
  {}

  lemma InstallInv(c: Config, st: State, v: Value)
    requires Inv(c, st)
    ensures Inv(c, Install(st, v)) && Deref(Install(st, v)) == v && History(Install(st, v)) == History(st) + [v]
  {
    var next := Install(st, v);
    forall t | 0 <= t < |st.threads| ensures WorkOk(c, next, st.threads[t]) { assert WorkOk(c, st, st.threads[t]); }
    assert forall i :: 0 <= i < |st.installed| ==> next.boxes[st.installed[i]] == st.boxes[st.installed[i]];
  }

  lemma AllocateInv(c: Config, st: State, v: Value)
    requires Inv(c, st)
    ensures Inv(c, Allocate(st, v)) && Deref(Allocate(st, v)) == Deref(st) && History(Allocate(st, v)) == History(st)
  {
    var next := Allocate(st, v);
    forall t | 0 <= t < |st.threads| ensures WorkOk(c, next, st.threads[t]) { assert WorkOk(c, st, st.threads[t]); }
    assert forall i :: 0 <= i < |st.installed| ==> next.boxes[st.installed[i]] == st.boxes[st.installed[i]];
  }

  lemma CompareAndSetInv(c: Config, st: State, t: nat, box: nat, newv: Value, result: Result, again: Work)
    requires Inv(c, st) && box < |st.boxes| && (again.Starting? || again.Done?)
    ensures Inv(c, CompareAndSetBox(c, st, t, box, newv, result, again))
  {
    hide Inv, Install, Allocate, Set;
    if !(st.boxes[box] == newv && !c.watched) {
      InstallInv(c, st, newv);
      AllocateInv(c, st, newv);
      SimpleInv(c, Install(st, newv), t, Installed(c, t, st.boxes[box], newv, result));
      SimpleInv(c, Allocate(st, newv), t, again);
    }
    SimpleInv(c, st, t, Done(result));
    SimpleInv(c, st, t, again);
  }

  /** Work that remembers no box is fine in any state. */
  lemma SimpleInv(c: Config, st: State, t: nat, w: Work)
    requires Inv(c, st) && (w.Starting? || w.Done? || w.Panicked? || (w.Notifying? && c.watched)
             || ((w.Resetting? || w.Replacing?) && c.valid(w.newv)))
    ensures Inv(c, Set(st, t, w))
  {
    SetInv(c, st, t, w);
  }

  lemma LoadInv(c: Config, st: State, t: nat)
    requires Inv(c, st)
    ensures forall f :: Inv(c, Set(st, t, Swapping(f, Current(st), |st.installed|)))
    ensures forall newv :: Inv(c, Set(st, t, Comparing(Deref(st), newv, Current(st), |st.installed|)))
    ensures forall newv :: newv == Deref(st) && c.valid(newv) && !c.watched ==>
            Inv(c, Set(st, t, Keeping(newv, Current(st), |st.installed|)))
  {
    hide WorkOk;
    Loads(c, st);
    forall f ensures Inv(c, Set(st, t, Swapping(f, Current(st), |st.installed|))) {
      SetInv(c, st, t, Swapping(f, Current(st), |st.installed|));
    }
    forall newv ensures Inv(c, Set(st, t, Comparing(Deref(st), newv, Current(st), |st.installed|))) {
      SetInv(c, st, t, Comparing(Deref(st), newv, Current(st), |st.installed|));
    }
    forall newv | newv == Deref(st) && c.valid(newv) && !c.watched
      ensures Inv(c, Set(st, t, Keeping(newv, Current(st), |st.installed|)))
    {
      SetInv(c, st, t, Keeping(newv, Current(st), |st.installed|));
    }
  }

  lemma Loads(c: Config, st: State)
    requires Inv(c, st)
    ensures forall f :: WorkOk(c, st, Swapping(f, Current(st), |st.installed|))
    ensures forall newv :: WorkOk(c, st, Comparing(Deref(st), newv, Current(st), |st.installed|))
    ensures forall newv :: newv == Deref(st) && c.valid(newv) && !c.watched ==>
            WorkOk(c, st, Keeping(newv, Current(st), |st.installed|))
  {}

  lemma StepKeepsInv(c: Config, st: State, a: Action)
    requires Inv(c, st)
    ensures Inv(c, Step(c, st, a))
  {
    hide CompareAndSetBox, Install, Allocate, Set;
    var t := a.t;
    LoadInv(c, st, t);
    SimpleInv(c, st, t, Panicked);
    SimpleInv(c, st, t, Done(Answer(false)));
    match a
    case Swap(_, f) => SimpleInv(c, st, t, Starting(f));
    case Reset(_, newv) => if c.valid(newv) { SimpleInv(c, st, t, Resetting(newv)); }
    case Proceed(_) =>
      match WorkOf(st, t) {
       case Swapping(f, box, _) => CompareAndSetInv(c, st, t, box, f(st.boxes[box]), Returned(f(st.boxes[box])),
           Starting(f));
       case Comparing(_, newv, box, _) => CompareAndSetInv(c, st, t, box, newv, Answer(true), Done(Answer(false)));
       case Resetting(newv) => SimpleInv(c, st, t, Replacing(newv));
       case Keeping(newv, _, _) =>
         SimpleInv(c, st, t, Done(Returned(newv)));
         SimpleInv(c, st, t, Resetting(newv));
       case Replacing(newv) =>
         InstallInv(c, st, newv);
         SimpleInv(c, Install(st, newv), t, Installed(c, t, Deref(st), newv, Returned(newv)));
       case Notifying(before, after, result) =>
         var paid := st.(notified := st.notified + [(before, after)]);
         SameInv(c, st, paid);
         SimpleInv(c, paid, t, Done(result));
       case _ =>
      }
    case _ =>
  }

  lemma SameInv(c: Config, st: State, next: State)
    requires Inv(c, st) && next.boxes == st.boxes && next.installed == st.installed && next.threads == st.threads
    ensures Inv(c, next)
  {
    forall t | 0 <= t < |next.threads| ensures WorkOk(c, next, next.threads[t]) { assert WorkOk(c, st, st.threads[t]); }
  }

  // ---- linearizability ----

  /** The value of the atom changes only by an operation that takes effect on the value right before it. */
  ghost predicate TakesEffect(before: Value, after: Value, w: Work) {
    match w
    case Swapping(f, _, _) => after == f(before)
    case Comparing(expected, newv, _, _) => before == expected && after == newv
    case Replacing(newv) => after == newv
    case _ => after == before
  }

  predicate Succeeds(w: Work, next: Work) {
    (next.Done? && (next.result.Returned? || next.result.b)) || next.Notifying?
  }

  /** The pointer is back at a loaded box only if nothing was installed since. */
  lemma NoStaleSwap(c: Config, st: State, box: nat, seen: nat)
    requires Inv(c, st) && LoadOk(st, box, seen) && Current(st) == box
    ensures seen == |st.installed| && Deref(st) == st.boxes[box]
  {}

  /**
   Each step either leaves the value alone or is the moment at which one operation takes effect, on the
   value immediately before; an operation that is not yet successful has had no effect.
   */
  lemma StepIsAtomic(c: Config, st: State, t: nat)
    requires Inv(c, st) && t < |st.threads|
    ensures var next := Step(c, st, Proceed(t));
            var w := st.threads[t];
            WellFormed(next)
            && (if Succeeds(w, next.threads[t]) && !w.Notifying?
                && !w.Done? then TakesEffect(Deref(st), Deref(next), w) else Deref(next) == Deref(st))
            && (w.Swapping? && Succeeds(w, next.threads[t]) ==> ResultOf(next.threads[t]) == Returned(Deref(next)))
            && (w.Comparing? && Succeeds(w, next.threads[t]) ==> ResultOf(next.threads[t]) == Answer(true))
  {
    var w := st.threads[t];
    if w.Swapping? || w.Comparing? || w.Keeping? {
      if Current(st) == w.box { NoStaleSwap(c, st, w.box, w.seen); }
    }
  }

  function ResultOf(w: Work): Result
    requires w.Done? || w.Notifying?
  {
    w.result
  }

  /** Starting an operation changes no value. */
  lemma StartChangesNothing(c: Config, st: State, a: Action)
    requires Inv(c, st) && !a.Proceed?
    ensures WellFormed(Step(c, st, a)) && Deref(Step(c, st, a)) == Deref(st) && History(Step(c, st, a)) == History(st)
  {}

  /** The history only grows, by the values that were installed. */
  lemma HistoryGrows(c: Config, st: State, a: Action)
    requires Inv(c, st)
    ensures WellFormed(Step(c, st, a))
    ensures var next := Step(c, st, a);
            History(next) == History(st) || History(next) == History(st) + [Deref(next)]
  {
    hide Step, History, Inv, WellFormed;
    if a.Proceed? { ProceedGrows(c, st, a); } else { StartChangesNothing(c, st, a); }
  }

  lemma ProceedGrows(c: Config, st: State, a: Action)
    requires Inv(c, st) && a.Proceed?
    ensures WellFormed(Step(c, st, a))
    ensures var next := Step(c, st, a);
            History(next) == History(st) || History(next) == History(st) + [Deref(next)]
  {
    StepKeepsInv(c, st, a);
    var next := Step(c, st, a);
    if next.installed == st.installed {
      assert History(next) == History(st);
    } else {
      assert next.installed == st.installed + [|st.boxes|];
      assert History(next) == History(st) + [Deref(next)];
    }
  }

  // ---- the validator ----

  ghost predicate AllValid(c: Config, st: State)
    requires WellFormed(st)
  {
    forall i :: 1 <= i < |st.installed| ==> c.valid(st.boxes[st.installed[i]])
  }

  /** Every installed value after the first has passed the validator. */
  lemma {:induction false} InstalledValuesAreValid(c: Config, st: State, actions: seq<Action>)
    requires Inv(c, st) && AllValid(c, st)
    ensures AllValid(c, Run(c, st, actions))
    decreases |actions|
  {
    hide Step;
    if actions != [] {
      StepKeepsInv(c, st, actions[0]);
      ValidStep(c, st, actions[0]);
      InstalledValuesAreValid(c, Step(c, st, actions[0]), actions[1..]);
    }
  }

  lemma ValidStep(c: Config, st: State, a: Action)
    requires Inv(c, st) && AllValid(c, st) && WellFormed(Step(c, st, a))
    ensures AllValid(c, Step(c, st, a))
  {}

  // ---- the watches ----

  /** Made and pending notifications together are exactly the adjacent pairs of the history. */
  ghost predicate WatchesOk(c: Config, st: State)
    requires WellFormed(st)
  {
    c.watched ==> multiset(st.notified) + Pending(st.threads) == Pairs(History(st))
  }

  lemma {:induction false} PendingUpdate(threads: seq<Work>, t: nat, w: Work)
    requires t < |threads|
    ensures Pending(threads[t := w]) + Owed(threads[t]) == Pending(threads) + Owed(w)
  {
    hide Owed;
    var n := |threads| - 1;
    if t < n {
      PendingUpdate(threads[..n], t, w);
      assert threads[t := w][..n] == threads[..n][t := w];
    } else {
      assert threads[t := w][..n] == threads[..n];
    }
    forall x
      ensures (Pending(threads[t := w]) + Owed(threads[t]))[x] == (Pending(threads) + Owed(w))[x]
    {
      if t < n { assert (Pending(threads[..n][t := w]) + Owed(threads[t]))[x] == (Pending(threads[..n]) + Owed(w))[x]; }
    }
  }

  lemma PairsGrow(h: seq<Value>, v: Value)
    requires h != []
    ensures Pairs(h + [v]) == Pairs(h) + multiset{(h[|h| - 1], v)}
  {
    assert (h + [v])[..|h|] == h;
  }

  /** What a step owes and pays, and what it adds to the history. */
  ghost predicate Books(st: State, next: State, t: nat)
    requires WellFormed(st) && t < |st.threads|
  {
    && WellFormed(next)
    && |next.threads| == |st.threads| && next.threads == st.threads[t := next.threads[t]]
    && (if next.installed != st.installed then
          && History(next) == History(st) + [Deref(next)]
          && Owed(next.threads[t]) == multiset{(Deref(st), Deref(next))}
          && Owed(st.threads[t]) == multiset{} && next.notified == st.notified
        else
          && History(next) == History(st)
          && multiset(next.notified) + Owed(next.threads[t]) == multiset(st.notified) + Owed(st.threads[t]))
  }

  lemma CompareAndSetBooks(c: Config, st: State, t: nat, box: nat, seen: nat, newv: Value, result: Result, again: Work)
    requires WellFormed(st) && Inv(c, st) && c.watched && t < |st.threads| && LoadOk(st, box, seen)
             && box < |st.boxes| && Owed(st.threads[t]) == multiset{}
    requires again.Starting? || again.Done?
    ensures Books(st, CompareAndSetBox(c, st, t, box, newv, result, again), t)
  {
    hide Inv, History;
    InstallInv(c, st, newv);
    AllocateInv(c, st, newv);
    if Current(st) == box { NoStaleSwap(c, st, box, seen); }
    QuietBooks(c, Install(st, newv), t);
    QuietBooks(c, Allocate(st, newv), t);
  }

  lemma QuietBooks(c: Config, st: State, t: nat)
    requires Inv(c, st)
    ensures forall w ::
            WellFormed(Set(st, t, w)) && Deref(Set(st, t, w)) == Deref(st) && History(Set(st, t, w)) == History(st)
  {
    forall w ensures WellFormed(Set(st, t, w)) && Deref(Set(st, t, w)) == Deref(st) && History(Set(st, t, w))
        == History(st) {
      assert WellFormed(Set(st, t, w));
      assert History(Set(st, t, w)) == History(st);
    }
  }

  lemma WatchStep(c: Config, st: State, a: Action)
    requires Inv(c, st) && c.watched && a.t < |st.threads|
    ensures Books(st, Step(c, st, a), a.t)
  {
    hide CompareAndSetBox, History, Install, Inv;
    var t, w := a.t, st.threads[a.t];
    Loaded(c, st, t);
    if !a.Proceed? || Free(w) || w.Starting? || w.Resetting? || w.Keeping? {
      OwesNothing(c, st, a);
    } else {
      PanicBooks(c, st, t);
      match w
      case Swapping(f, box, seen) =>
        CompareAndSetBooks(c, st, t, box, seen, f(st.boxes[box]), Returned(f(st.boxes[box])), Starting(f));
      case Comparing(_, newv, box, seen) =>
        CompareAndSetBooks(c, st, t, box, seen, newv, Answer(true), Done(Answer(false)));
      case Replacing(newv) => ReplaceBooks(c, st, t, newv);
      case Notifying(before, after, result) => PayBooks(c, st, t);
      case _ =>
    }
  }

  lemma PanicBooks(c: Config, st: State, t: nat)
    requires Inv(c, st) && t < |st.threads|
    ensures Owed(st.threads[t]) == multiset{} ==> Books(st, Set(st, t, Panicked), t)
  {
    hide History;
    QuietBooks(c, st, t);
  }

  lemma PayBooks(c: Config, st: State, t: nat)
    requires Inv(c, st) && c.watched && t < |st.threads| && st.threads[t].Notifying?
    ensures Books(st, Step(c, st, Proceed(t)), t)
  {
    hide CompareAndSetBox, History, Install;
    var w := st.threads[t];
    var paid := st.(notified := st.notified + [(w.before, w.after)]);
    SameInv(c, st, paid);
    QuietBooks(c, paid, t);
    SameHistory(c, st, paid);
  }

  lemma Loaded(c: Config, st: State, t: nat)
    requires Inv(c, st) && t < |st.threads|
    ensures WellFormed(st) && WorkOk(c, st, st.threads[t])
  {}

  /** Steps that only move the thread on. */
  lemma OwesNothing(c: Config, st: State, a: Action)
    requires Inv(c, st) && c.watched && a.t < |st.threads|
    requires !a.Proceed? || Free(st.threads[a.t]) || st.threads[a.t].Starting? || st.threads[a.t].Resetting?
             || st.threads[a.t].Keeping?
    ensures Books(st, Step(c, st, a), a.t)
  {
    hide CompareAndSetBox, History, Install;
    QuietBooks(c, st, a.t);
  }

  lemma SameHistory(c: Config, st: State, next: State)
    requires Inv(c, st) && next.boxes == st.boxes && next.installed == st.installed
    ensures WellFormed(next) && History(next) == History(st) && Deref(next) == Deref(st)
  {
    assert History(next) == History(st);
  }

  lemma ReplaceBooks(c: Config, st: State, t: nat, newv: Value)
    requires Inv(c, st) && c.watched && t < |st.threads| && Owed(st.threads[t]) == multiset{}
    ensures Books(st, Set(Install(st, newv), t, Installed(c, t, Deref(st), newv, Returned(newv))), t)
  {
    hide Inv, History;
    InstallInv(c, st, newv);
    QuietBooks(c, Install(st, newv), t);
  }

  /** The books balance: what is paid and owed grows by what the history grows by. */
  lemma Ledger<T>(paid: multiset<T>, paid2: multiset<T>, all: multiset<T>, all2: multiset<T>, owed: multiset<T>,
          owed2: multiset<T>, pairs: multiset<T>, more: multiset<T>)
    requires paid + all == pairs && all2 + owed == all + owed2 && paid2 + owed2 == paid + owed + more
    ensures paid2 + all2 == pairs + more
  {
    forall x
      ensures (paid2 + all2)[x] == (pairs + more)[x]
    {
      assert (paid + all)[x] == pairs[x] && (all2 + owed)[x] == (all + owed2)[x] && (paid2 + owed2)[x]
          == (paid + owed + more)[x];
    }
  }

  lemma WatchesStep(c: Config, st: State, a: Action)
    requires Inv(c, st) && WatchesOk(c, st)
    ensures WellFormed(Step(c, st, a)) && WatchesOk(c, Step(c, st, a))
  {
    hide Step, Pending, Owed, History, Pairs;
    StepKeepsInv(c, st, a);
    NoThread(c, st, a);
    if c.watched {
      if a.t < |st.threads| {
        WatchStep(c, st, a);
        PendingUpdate(st.threads, a.t, Step(c, st, a).threads[a.t]);
        LastOfHistory(c, st);
        var next := Step(c, st, a);
        PairsGrow(History(st), Deref(next));
        var more := if next.installed != st.installed then multiset{(Deref(st), Deref(next))} else multiset{};
        Ledger(multiset(st.notified), multiset(next.notified), Pending(st.threads), Pending(next.threads),
               Owed(st.threads[a.t]), Owed(next.threads[a.t]), Pairs(History(st)), more);
      }
    }
  }

  lemma NoThread(c: Config, st: State, a: Action)
    requires Inv(c, st)
    ensures a.t >= |st.threads| ==> Step(c, st, a) == st
  {}

  lemma LastOfHistory(c: Config, st: State)
    requires Inv(c, st)
    ensures WellFormed(st) && History(st) != [] && History(st)[|History(st)| - 1] == Deref(st)
  {}

  lemma {:induction false} WatchesInEveryRun(c: Config, st: State, actions: seq<Action>)
    requires Inv(c, st) && WatchesOk(c, st)
    ensures WatchesOk(c, Run(c, st, actions))
    decreases |actions|
  {
    hide Step, WatchesOk;
    if actions != [] {
      StepKeepsInv(c, st, actions[0]);
      WatchesStep(c, st, actions[0]);
      WatchesInEveryRun(c, Step(c, st, actions[0]), actions[1..]);
    }
  }

  /** When nothing is in progress, the notified pairs are exactly the adjacent pairs of the install history. */
  lemma NotifiedPairsAreAdjacent(c: Config, v: Value, n: nat, actions: seq<Action>)
    requires c.watched
    requires var threads := Run(c, Fresh(c, v, n), actions).threads;
             forall i :: 0 <= i < |threads| ==> Free(threads[i])
    ensures var st := Run(c, Fresh(c, v, n), actions);
            multiset(st.notified) == Pairs(History(st))
  {
    hide Run;
    FreshWatches(c, v, n);
    WatchesInEveryRun(c, Fresh(c, v, n), actions);
    NothingOwed(Run(c, Fresh(c, v, n), actions).threads);
  }

  lemma FreshWatches(c: Config, v: Value, n: nat)
    ensures WatchesOk(c, Fresh(c, v, n))
  {
    NothingOwed(Fresh(c, v, n).threads);
  }

  lemma {:induction false} NothingOwed(threads: seq<Work>)
    requires forall i :: 0 <= i < |threads| ==> Free(threads[i])
    ensures Pending(threads) == multiset{}
  {
    if threads != [] { NothingOwed(threads[..|threads| - 1]); }
  }

  // ---- compare-and-set ----

  /** A false answer after the load means that something was installed since: never an install of its own. */
  lemma CompareAndSetFails(c: Config, st: State, t: nat)
    requires Inv(c, st) && t < |st.threads| && st.threads[t].Comparing?
    ensures Step(c, st, Proceed(t)).threads[t] == Done(Answer(false)) <==>
              c.valid(st.threads[t].newv) && |st.installed| > st.threads[t].seen
  {
    var w := st.threads[t];
    if Current(st) == w.box { NoStaleSwap(c, st, w.box, w.seen); }
  }

  /** What was installed may be the same value: the answer is false although the atom held the expected value all
      along. */
  lemma SpuriousFailure(x: Value, y: Value)
    ensures var c := Config(_ => true, true);
            var s0 := Fresh(c, x, 2);
            var s1 := Step(c, s0, CompareAndSet(0, x, y));
            Inv(c, s1) &&
            var s2 := Step(c, s1, Swap(1, v => v));
            Inv(c, s2) &&
            var s3 := Step(c, s2, Proceed(1));
            Inv(c, s3) &&
            var s4 := Step(c, s3, Proceed(1));
            Inv(c, s4) &&
            var s5 := Step(c, s4, Proceed(0));
            && Inv(c, s5)
            && Deref(s0) == Deref(s1) == Deref(s2) == Deref(s3) == Deref(s4) == Deref(s5) == x
            && s5.threads[0] == Done(Answer(false))
  {
    hide Inv;
    var c := Config(_ => true, true);
    var s0 := Fresh(c, x, 2);
    var s1 := Step(c, s0, CompareAndSet(0, x, y));
    StepKeepsInv(c, s0, CompareAndSet(0, x, y));
    var s2 := Step(c, s1, Swap(1, v => v));
    StepKeepsInv(c, s1, Swap(1, v => v));
    var s3 := Step(c, s2, Proceed(1));
    StepKeepsInv(c, s2, Proceed(1));
    var s4 := Step(c, s3, Proceed(1));
    StepKeepsInv(c, s3, Proceed(1));
    StepKeepsInv(c, s4, Proceed(0));
  }
}
