/** How often a listener with a positive count is invoked. */
module DispatcherCounts {
  import opened Bytes
  import opened Dispatcher
  import opened DispatcherSafety

  function Dispatches(log: seq<Note>, e: string): nat
    decreases |log|
  {
    if log == [] then 0
    else
      var n := log[|log| - 1];
      Dispatches(log[..|log| - 1], e) + if n.Took? && n.event == e then 1 else 0
  }

  /** The dispatches of e that found l registered. */
  function Findings(log: seq<Note>, e: string, l: Listener): nat
    decreases |log|
  {
    if log == [] then 0
    else
      var n := log[|log| - 1];
      Findings(log[..|log| - 1], e, l) + if n.Took? && n.event == e && l in n.found then 1 else 0
  }

  function Invocations(log: seq<Note>, l: Listener): nat
    decreases |log|
  {
    if log == [] then 0 else Invocations(log[..|log| - 1], l) + if log[|log| - 1] == Ran(l) then 1 else 0
  }

  /** What matters for listener l of event type e. */
  datatype Tally = Tally(dispatches: nat, found: nat, invocations: nat, count: int, registered: bool)

  function TallyOf(s: State, e: string, l: Listener): Tally {
    Tally(Dispatches(s.log, e), Findings(s.log, e, l), Invocations(s.log, l), CountOf(s, l), l in Registered(s, e))
  }

  /** l is not registered for any other event type. */
  predicate OnlyFor(s: State, e: string, l: Listener) {
    forall d <- s.listeners :: d != e ==> l !in s.listeners[d]
  }

  /** A dispatch of e between its snapshot and the end of its loop. */
  predicate IsOpen(f: Frame, e: string) {
    f.op == Dispatch(e) && (f.pc.Loop? || f.pc.Running? || f.pc.After? || f.pc.Check?)
  }

  /** The handler of l has been called and its count not yet looked at. */
  predicate Invokes(f: Frame, e: string, l: Listener) {
    IsOpen(f, e) && (f.pc.Running? || f.pc.After?) && f.pc.current == l
  }

  /** The dispatch found l and is not done with it. */
  predicate Owes(f: Frame, e: string, l: Listener) {
    IsOpen(f, e) && (l in f.pc.rest || Invokes(f, e, l))
  }

  function Owing(fs: seq<Frame>, e: string, l: Listener): nat
    decreases |fs|
  {
    if fs == [] then 0 else Owing(fs[..|fs| - 1], e, l) + if Owes(Top(fs), e, l) then 1 else 0
  }

  function Invoking(fs: seq<Frame>, e: string, l: Listener): nat
    decreases |fs|
  {
    if fs == [] then 0 else Invoking(fs[..|fs| - 1], e, l) + if Invokes(Top(fs), e, l) then 1 else 0
  }

  /** No other call adds or removes l, and no other event type finds it. */
  predicate LeavesAlone(f: Frame, e: string, l: Listener) {
    match f.op
    case Add(_, x) => x != l
    case Remove(_, x) => x != l
    case Has(_) => true
    case Dispatch(d) => d != e ==> l !in f.registered
  }

  predicate StackQuiet(fs: seq<Frame>, e: string, l: Listener) {
    forall f <- fs :: LeavesAlone(f, e, l)
  }

  /** The step adds or removes l in no other way than by its count, and no handler of e panics or stops
      the propagation. */
  predicate Undisturbed(s: State, a: Action, e: string, l: Listener) {
    var fs := Stack(s, a.who);
    && (fs != [] && Top(fs).op == Dispatch(e) ==> a.what != Panic && a.what != Stop)
    && (a.what.Call? ==> LeavesAlone(Frame(a.what.op, Enter, false, {}, [], NotYet), e, l))
  }

  predicate UndisturbedRun(s: State, actions: seq<Action>, e: string, l: Listener)
    decreases |actions|
  {
    actions != [] ==> Undisturbed(s, actions[0], e, l)
                      && (Step(s, actions[0]).Some? ==> UndisturbedRun(Step(s, actions[0]).value, actions[1..], e, l))
  }

  /** A dispatch of e finds l although the dispatches under way in the same goroutine, one inside a
      handler of the other, will use up its count. */
  predicate Overcommits(s: State, a: Action, e: string, l: Listener) {
    var fs := Stack(s, a.who);
    && a.who != 0 && a.what == Proceed && fs != [] && Top(fs).op == Dispatch(e) && Top(fs).pc.Snapshot?
    && l in Registered(s, e) && Owing(fs, e, l) >= CountOf(s, l)
  }

  predicate OvercommitsIn(s: State, actions: seq<Action>, e: string, l: Listener)
    decreases |actions|
  {
    actions != [] &&
      (Overcommits(s, actions[0], e, l)
       || (Step(s, actions[0]).Some? && OvercommitsIn(Step(s, actions[0]).value, actions[1..], e, l)))
  }

  /** k invocations allowed, by owing dispatches that are not done with l and invoking ones that are in
      its handler: the others that found l have counted it. */
  predicate Accounts(owing: nat, invoking: nat, t: Tally, k: nat) {
    && invoking <= owing <= t.found <= t.dispatches
    && var counted := t.found - owing;
       && t.invocations == counted + invoking
       && t.count == (if counted < k then k - counted else 0)
       && (t.registered <==> counted < k)
       && (t.found < t.dispatches ==> counted >= k)
  }

  predicate NotBefore(t: Tally, start: Tally) {
    start.dispatches <= t.dispatches && start.found <= t.found && start.invocations <= t.invocations
  }

  /** The counts since the tally was zero. */
  function Since(t: Tally, start: Tally): Tally
    requires NotBefore(t, start)
  {
    t.(dispatches := t.dispatches - start.dispatches, found := t.found - start.found,
       invocations := t.invocations - start.invocations)
  }

  predicate CountInv(s: State, e: string, l: Listener, k: nat, start: Tally) {
    var t, fs := TallyOf(s, e, l), Stack(s, s.mutex);
    && Inv(s) && OnlyFor(s, e, l)
    && (forall g <- s.stacks :: StackQuiet(s.stacks[g], e, l))
    && NotBefore(t, start)
    && Accounts(Owing(fs, e, l), Invoking(fs, e, l), Since(t, start), k)
    && Since(t, start).found < k + MAX_RECURSION
  }

  // ---- how a step changes the tally ----------------------------------------

  lemma {:induction false} LogGrows(log: seq<Note>, n: Note, e: string, l: Listener)
    ensures Dispatches(log + [n], e) == Dispatches(log, e) + if n.Took? && n.event == e then 1 else 0
    ensures Findings(log + [n], e, l) == Findings(log, e, l) + if n.Took? && n.event == e && l in n.found then 1 else 0
    ensures Invocations(log + [n], l) == Invocations(log, l) + if n == Ran(l) then 1 else 0
  {
    assert (log + [n])[..|log|] == log;
  }

  /** One less to go; the last one removes the listener from the event type that was dispatched. */
  function CountDown(t: Tally, here: bool): Tally {
    t.(count := t.count - 1, registered := t.registered && (here ==> t.count > 1))
  }

  /** The effect of a loop step on the tally. */
  function NextTally(t: Tally, f: Frame, c: Choice, e: string, l: Listener): Tally {
    match f.pc
    case Snapshot =>
      if f.op.event == e then t.(dispatches := t.dispatches + 1, found := t.found + if t.registered then 1 else 0)
      else t
    case Loop(_) => if c == Pick(l) then t.(invocations := t.invocations + 1) else t
    case After(x, _) =>
      if x == l && t.count > 0 then CountDown(t, f.op.event == e) else t
    case _ => t
  }

  lemma {:induction false} CountTally(s: State, d: string, x: Listener, e: string, l: Listener)
    ensures var u, t := CountStep(s, d, x), TallyOf(s, e, l);
            && TallyOf(u, e, l) == (if x == l && t.count > 0 then CountDown(t, d == e) else t)
            && (OnlyFor(s, e, l) ==> OnlyFor(u, e, l))
            && u.stacks == s.stacks && u.mutex == s.mutex
  {
    hide Dispatches, Findings, Invocations;
    LogGrows(s.log, Removed(d, x), e, l);
  }

  lemma {:induction false} LoopTally(s: State, f: Frame, c: Choice, e: string, l: Listener)
    requires f.op.Dispatch?
    ensures TallyOf(LoopShared(s, f, c), e, l) == NextTally(TallyOf(s, e, l), f, c, e, l)
    ensures OnlyFor(s, e, l) ==> OnlyFor(LoopShared(s, f, c), e, l)
    ensures LoopShared(s, f, c).stacks == s.stacks && LoopShared(s, f, c).mutex == s.mutex
  {
    hide Dispatches, Findings, Invocations, CountStep;
    match f.pc {
      case Snapshot => LogGrows(s.log, Took(f.op.event, Registered(s, f.op.event)), e, l);
      case Loop(_) => if c.Pick? { LogGrows(s.log, Ran(c.listener), e, l); }
      case After(x, _) => CountTally(s, f.op.event, x, e, l);
      case _ =>
    }
  }

  lemma {:induction false} BodyTally(s: State, op: Op, e: string, l: Listener)
    requires LeavesAlone(Frame(op, Body, false, {}, [], NotYet), e, l)
    ensures TallyOf(BodyShared(s, op), e, l) == TallyOf(s, e, l)
    ensures OnlyFor(s, e, l) ==> OnlyFor(BodyShared(s, op), e, l)
  {
    hide Dispatches, Findings, Invocations;
    match op {
      case Add(d, x) => LogGrows(s.log, Added(d, x), e, l);
      case Remove(d, x) => LogGrows(s.log, Removed(d, x), e, l);
      case Has(d) => LogGrows(s.log, Answered(d, Registered(s, d) != {}), e, l);
      case Dispatch(_) =>
    }
  }

  // ---- how a loop step changes the account ---------------------------------

  /** A step of a dispatch of e, in front of others that owe and invoke l. */
  lemma {:induction false} LoopAccounts(f: Frame, c: Choice, found: set<Listener>, t: Tally, e: string, l: Listener,
      k: nat, owing: nat, invoking: nat)
    requires f.op == Dispatch(e) && Records(f) && k > 0
    requires c != Panic && c != Stop && LoopFrame(f, c, found).Some? && (t.registered <==> l in found)
    requires Accounts(owing + if Owes(f, e, l) then 1 else 0, invoking + if Invokes(f, e, l) then 1 else 0, t, k)
    requires invoking <= owing
    ensures var g := LoopFrame(f, c, found).value;
            Accounts(owing + if Owes(g, e, l) then 1 else 0, invoking + if Invokes(g, e, l) then 1 else 0,
                     NextTally(t, f, c, e, l), k)
  {
  }

  /** The findings exceed the count from the first overcommitted snapshot on. */
  lemma {:induction false} Exceeds(f: Frame, c: Choice, found: set<Listener>, t: Tally, e: string, l: Listener,
      k: nat, owing: nat, invoking: nat)
    requires f.op == Dispatch(e) && LoopFrame(f, c, found).Some? && (t.registered <==> l in found)
    requires Accounts(owing, invoking, t, k) && k > 0
    ensures NextTally(t, f, c, e, l).found > k
            <==> t.found > k || (f.pc.Snapshot? && c == Proceed && l in found && owing >= t.count)
    ensures NextTally(t, f, c, e, l).found <= t.found + 1
    ensures NextTally(t, f, c, e, l).found > t.found ==> f.pc.Snapshot? && t.found < k + owing
  {
  }

  // ---- every step ----------------------------------------------------------

  lemma {:induction false} OwingTop(fs: seq<Frame>, g: Frame, e: string, l: Listener)
    ensures Owing(fs + [g], e, l) == Owing(fs, e, l) + if Owes(g, e, l) then 1 else 0
    ensures Invoking(fs + [g], e, l) == Invoking(fs, e, l) + if Invokes(g, e, l) then 1 else 0
  {
    assert (fs + [g])[..|fs|] == fs;
  }

  lemma {:induction false} OwingBound(fs: seq<Frame>, e: string, l: Listener)
    ensures Invoking(fs, e, l) <= Owing(fs, e, l) <= |fs|
    decreases |fs|
  {
    if fs != [] {
      OwingBound(fs[..|fs| - 1], e, l);
    }
  }

  lemma {:induction false} NothingOwed(fs: seq<Frame>, e: string, l: Listener)
    requires forall f <- fs :: !IsOpen(f, e)
    ensures Owing(fs, e, l) == 0 && Invoking(fs, e, l) == 0
    decreases |fs|
  {
    if fs != [] {
      NothingOwed(fs[..|fs| - 1], e, l);
    }
  }

  lemma {:induction false} MovedAlone(s: State, f: Frame, c: Choice, g: Frame, e: string, l: Listener)
    requires Moved(s, f, c, g) && OnlyFor(s, e, l) && LeavesAlone(f, e, l)
    ensures LeavesAlone(g, e, l) && g.op == f.op
  {
  }

  /** All stacks stay quiet. */
  lemma {:induction false} StaysQuiet(s: State, a: Action, e: string, l: Listener)
    requires Step(s, a).Some? && Undisturbed(s, a, e, l) && OnlyFor(s, e, l)
    requires forall t <- s.stacks :: StackQuiet(s.stacks[t], e, l)
    ensures forall t <- Step(s, a).value.stacks :: StackQuiet(Step(s, a).value.stacks[t], e, l)
  {
    hide Step, Moved, LeavesAlone;
    var g := StepShape(s, a);
    var u, fs := Step(s, a).value, Stack(s, a.who);
    assert StackQuiet(fs, e, l);
    forall t <- u.stacks ensures StackQuiet(u.stacks[t], e, l) {
      assert u.stacks[t] == Stack(u, t);
      if t != a.who {
        assert Stack(u, t) == Stack(s, t);
      } else if a.what.Call? {
      } else if Stack(u, t) != fs[..|fs| - 1] {
        MovedAlone(s, Top(fs), a.what, g, e, l);
      }
    }
  }

  /** Outside the loop neither the tally nor the dispatch under way changes. */
  lemma {:induction false} LockTally(s: State, t: Goroutine, e: string, l: Listener)
    requires Stack(s, t) != [] && IsLockPC(Top(Stack(s, t)).pc) && LockStep(s, t).Some?
    requires OnlyFor(s, e, l) && LeavesAlone(Top(Stack(s, t)), e, l)
    ensures var u := LockStep(s, t).value;
            && TallyOf(u, e, l) == TallyOf(s, e, l) && OnlyFor(u, e, l)
            && (u.mutex == s.mutex || (Top(Stack(s, t)).pc.WantLock? && s.mutex == 0 && u.mutex == t)
                || (Top(Stack(s, t)).pc.Unlock? && u.mutex == 0))
  {
    hide Dispatches, Findings, Invocations, BodyShared;
    var f := Top(Stack(s, t));
    if f.pc.Body? {
      BodyTally(s, f.op, e, l);
      BodyWords(s, f.op);
    }
  }

  lemma {:induction false} CallTally(s: State, t: Goroutine, op: Op, e: string, l: Listener)
    requires Stack(s, t) == [] || Top(Stack(s, t)).pc.Running?
    ensures var u := Push(s, t, Frame(op, Enter, false, {}, [], NotYet));
            TallyOf(u, e, l) == TallyOf(s, e, l) && (OnlyFor(s, e, l) ==> OnlyFor(u, e, l)) && u.mutex == s.mutex
  {
    hide Dispatches, Findings, Invocations;
  }

  /** The holder's stack changes at its top, outside the loop. */
  lemma {:induction false} SameOwing(s: State, a: Action, u: State, g: Frame, e: string, l: Listener)
    requires Shape(s, a, u, g) && Stack(s, a.who) != [] && (a.what.Call? || IsLockPC(Top(Stack(s, a.who)).pc))
    ensures Owing(Stack(u, a.who), e, l) == Owing(Stack(s, a.who), e, l)
    ensures Invoking(Stack(u, a.who), e, l) == Invoking(Stack(s, a.who), e, l)
  {
    hide Owing, Invoking;
    var fs := Stack(s, a.who);
    if a.what.Call? {
      ClosedTop(fs, Frame(a.what.op, Enter, false, {}, [], NotYet), e, l);
    } else {
      var below := fs[..|fs| - 1];
      assert fs == below + [Top(fs)];
      ClosedTop(below, Top(fs), e, l);
      if Stack(u, a.who) != below {
        ClosedTop(below, g, e, l);
      }
    }
  }

  lemma {:induction false} ClosedTop(below: seq<Frame>, f: Frame, e: string, l: Listener)
    requires !IsOpen(f, e)
    ensures Owing(below + [f], e, l) == Owing(below, e, l) && Invoking(below + [f], e, l) == Invoking(below, e, l)
  {
    hide Owing, Invoking;
    OwingTop(below, f, e, l);
  }

  /** What the dispatches under way owe, and how many of them are in the handler of l. */
  function Debts(s: State, e: string, l: Listener): (nat, nat) {
    (Owing(Stack(s, s.mutex), e, l), Invoking(Stack(s, s.mutex), e, l))
  }

  /** Outside the loop the debts stay the same. */
  lemma {:induction false} SameDebts(s: State, a: Action, e: string, l: Listener)
    requires Inv(s) && Step(s, a).Some?
    requires var u := Step(s, a).value; var fs := Stack(s, a.who);
             && (a.what.Call? || (fs != [] && IsLockPC(Top(fs).pc)))
             && (u.mutex == s.mutex
                 || (fs != [] && !a.what.Call? && Top(fs).pc.WantLock? && s.mutex == 0 && u.mutex == a.who)
                 || (fs != [] && !a.what.Call? && Top(fs).pc.Unlock? && u.mutex == 0))
    ensures Debts(Step(s, a).value, e, l) == Debts(s, e, l)
  {
    var g := StepShape(s, a);
    var t, u, fs := a.who, Step(s, a).value, Stack(s, a.who);
    NoZero(s, a);
    if u.mutex != s.mutex {
      WhereTop(s, t);
      hide Inv, Step, StackOk, Owing, Invoking;
      NothingOwed(if u.mutex == t then Stack(u, t) else fs, e, l);
      NothingOwed([], e, l);
    } else if t == s.mutex {
      WhereHolds(s);
      hide Inv, Step, StackOk, Owing, Invoking;
      SameOwing(s, a, u, g, e, l);
    }
  }

  lemma {:induction false} WhereHolds(s: State)
    requires Inv(s) && s.mutex != 0
    ensures Stack(s, s.mutex) != []
  {
  }

  lemma {:induction false} NoZero(s: State, a: Action)
    requires Inv(s) && Step(s, a).Some?
    ensures Stack(s, 0) == [] && a.who != 0 && Stack(Step(s, a).value, 0) == []
  {
    hide Inv;
    StepKeepsInv(s, a);
    EmptyZero(s);
    EmptyZero(Step(s, a).value);
  }

  lemma {:induction false} EmptyZero(s: State)
    requires Inv(s)
    ensures Stack(s, 0) == []
  {
  }

  /** Calls, locking, unlocking and bodies. */
  lemma {:induction false} LockKeepsCount(s: State, a: Action, e: string, l: Listener, k: nat, start: Tally)
    requires CountInv(s, e, l, k, start) && Step(s, a).Some? && Undisturbed(s, a, e, l)
    requires a.what.Call? || (Stack(s, a.who) != [] && IsLockPC(Top(Stack(s, a.who)).pc))
    ensures CountInv(Step(s, a).value, e, l, k, start)
    ensures TallyOf(Step(s, a).value, e, l) == TallyOf(s, e, l)
  {
    var t, fs := a.who, Stack(s, a.who);
    StepKeepsInv(s, a);
    StaysQuiet(s, a, e, l);
    if a.what.Call? {
      CallTally(s, t, a.what.op, e, l);
    } else {
      assert StackQuiet(fs, e, l);
      LockTally(s, t, e, l);
    }
    hide Inv, StackQuiet, Accounts, TallyOf, OnlyFor, Undisturbed, Owing, Invoking;
    SameDebts(s, a, e, l);
  }

  lemma {:induction false} SinceNext(t: Tally, start: Tally, f: Frame, c: Choice, e: string, l: Listener)
    requires NotBefore(t, start)
    ensures var u := NextTally(t, f, c, e, l);
            NotBefore(u, start) && Since(u, start) == NextTally(Since(t, start), f, c, e, l)
  {
  }

  /** A dispatch of another type never touches l. */
  lemma {:induction false} OtherDispatch(f: Frame, c: Choice, found: set<Listener>, t: Tally, e: string, l: Listener)
    requires f.op.Dispatch? && f.op.event != e && l !in f.registered && Records(f) && LoopFrame(f, c, found).Some?
    ensures NextTally(t, f, c, e, l) == t
  {
  }

  /** What a loop step does to the top of the holder's stack, and what lies below. */
  lemma {:induction false} LoopDebts(s: State, t: Goroutine, c: Choice, e: string, l: Listener)
    returns (g: Frame, below: seq<Frame>)
    requires Inv(s) && t != 0 && Stack(s, t) != [] && !IsLockPC(Top(Stack(s, t)).pc) && LoopStep(s, t, c).Some?
    ensures var f, u := Top(Stack(s, t)), LoopStep(s, t, c).value;
            && LoopFrame(f, c, Registered(s, f.op.event)) == Some(g) && f.op.Dispatch? && Records(f)
            && s.mutex == t && u == SetTop(LoopShared(s, f, c), t, g)
            && Stack(s, t) == below + [f] && Stack(u, u.mutex) == below + [g]
            && (InLoop(f) ==> |below| < MAX_RECURSION)
  {
    var fs := Stack(s, t);
    var f := Top(fs);
    below := fs[..|fs| - 1];
    WhereTop(s, t);
    DispatchOnly(f);
    hide Inv, StackOk, Records, LoopFrame, LoopShared, Registered;
    g := LoopFrame(f, c, Registered(s, f.op.event)).value;
    SharedStacks(s, f, c);
    SharedMutex(s, f, c);
    SetTopShape(s, LoopShared(s, f, c), t, g);
  }

  lemma {:induction false} SharedMutex(s: State, f: Frame, c: Choice)
    ensures LoopShared(s, f, c).mutex == s.mutex
  {
  }

  lemma {:induction false} QuietTop(s: State, t: Goroutine, e: string, l: Listener)
    requires Stack(s, t) != [] && forall g <- s.stacks :: StackQuiet(s.stacks[g], e, l)
    ensures LeavesAlone(Top(Stack(s, t)), e, l)
  {
    assert StackQuiet(Stack(s, t), e, l);
  }

  /** One loop step on the account of the holder. */
  lemma {:induction false} AccountStep(f: Frame, g: Frame, c: Choice, found: set<Listener>, t: Tally, e: string,
      l: Listener, k: nat, below: seq<Frame>)
    requires f.op.Dispatch? && Records(f) && k > 0 && LoopFrame(f, c, found) == Some(g) && LeavesAlone(f, e, l)
    requires f.op == Dispatch(e) ==> c != Panic && c != Stop && (t.registered <==> l in found)
    requires InLoop(f) ==> |below| < MAX_RECURSION
    requires Accounts(Owing(below + [f], e, l), Invoking(below + [f], e, l), t, k) && t.found < k + MAX_RECURSION
    ensures var u := NextTally(t, f, c, e, l);
            && Accounts(Owing(below + [g], e, l), Invoking(below + [g], e, l), u, k) && u.found < k + MAX_RECURSION
            && (u.found > k <==> t.found > k
                                 || (f.op == Dispatch(e) && f.pc.Snapshot? && c == Proceed && l in found
                                     && Owing(below + [f], e, l) >= t.count))
  {
    hide Records, LoopFrame, NextTally, Owing, Invoking, Accounts;
    OwingTop(below, f, e, l);
    OwingTop(below, g, e, l);
    OwingBound(below, e, l);
    if f.op == Dispatch(e) {
      LoopAccounts(f, c, found, t, e, l, k, Owing(below, e, l), Invoking(below, e, l));
      Exceeds(f, c, found, t, e, l, k, Owing(below + [f], e, l), Invoking(below + [f], e, l));
    } else {
      OtherDispatch(f, c, found, t, e, l);
      OtherMoves(f, c, found, g, e);
    }
  }

  lemma {:induction false} OtherMoves(f: Frame, c: Choice, found: set<Listener>, g: Frame, e: string)
    requires LoopFrame(f, c, found) == Some(g) && f.op != Dispatch(e)
    ensures !IsOpen(f, e) && !IsOpen(g, e)
  {
  }

  /** The dispatch loop of the goroutine that holds the mutex. */
  lemma {:induction false} LoopKeepsCount(s: State, a: Action, e: string, l: Listener, k: nat, start: Tally)
    requires CountInv(s, e, l, k, start) && Step(s, a).Some? && Undisturbed(s, a, e, l) && k > 0
    requires !a.what.Call? && !IsLockPC(Top(Stack(s, a.who)).pc)
    ensures CountInv(Step(s, a).value, e, l, k, start)
    ensures Since(TallyOf(Step(s, a).value, e, l), start).found > k
            <==> Since(TallyOf(s, e, l), start).found > k || Overcommits(s, a, e, l)
  {
    hide Inv, StackOk, StackQuiet, Records, Accounts, OnlyFor, LoopFrame, LoopShared, NextTally, Registered, IsOpen,
      SetTop, Dispatches, Findings, Invocations, CountOf, Owing, Invoking, LeavesAlone;
    var t, c := a.who, a.what;
    var f := Top(Stack(s, t));
    StepKeepsInv(s, a);
    StaysQuiet(s, a, e, l);
    QuietTop(s, t, e, l);
    var g, below := LoopDebts(s, t, c, e, l);
    LoopTally(s, f, c, e, l);
    SetTopTally(LoopShared(s, f, c), t, g, e, l);
    SinceNext(TallyOf(s, e, l), start, f, c, e, l);
    AccountStep(f, g, c, Registered(s, f.op.event), Since(TallyOf(s, e, l), start), e, l, k, below);
  }

  lemma {:induction false} SetTopTally(s: State, t: Goroutine, g: Frame, e: string, l: Listener)
    requires Stack(s, t) != []
    ensures TallyOf(SetTop(s, t, g), e, l) == TallyOf(s, e, l)
    ensures OnlyFor(s, e, l) ==> OnlyFor(SetTop(s, t, g), e, l)
  {
    hide Dispatches, Findings, Invocations;
  }

  /** Only a snapshot overcommits. */
  lemma {:induction false} NoSnapshot(s: State, a: Action, e: string, l: Listener)
    requires a.what.Call? || (Stack(s, a.who) != [] && IsLockPC(Top(Stack(s, a.who)).pc))
    ensures !Overcommits(s, a, e, l)
  {
  }

  lemma {:induction false} RunKeepsCount(s: State, actions: seq<Action>, e: string, l: Listener, k: nat, start: Tally)
    requires CountInv(s, e, l, k, start) && Run(s, actions).Some? && UndisturbedRun(s, actions, e, l) && k > 0
    ensures CountInv(Run(s, actions).value, e, l, k, start)
    ensures Since(TallyOf(Run(s, actions).value, e, l), start).found > k
            <==> Since(TallyOf(s, e, l), start).found > k || OvercommitsIn(s, actions, e, l)
    decreases |actions|
  {
    hide Inv, OnlyFor, StackQuiet, Accounts, TallyOf, Undisturbed, LoopStep, LockStep, Overcommits, Owing, Invoking;
    if actions != [] {
      var a := actions[0];
      if a.what.Call? || IsLockPC(Top(Stack(s, a.who)).pc) {
        LockKeepsCount(s, a, e, l, k, start);
        NoSnapshot(s, a, e, l);
      } else {
        LoopKeepsCount(s, a, e, l, k, start);
      }
      RunKeepsCount(Step(s, a).value, actions[1..], e, l, k, start);
    }
  }

  /** Nobody is in a call, and l is registered for e alone with count k. */
  predicate Idle(s: State, e: string, l: Listener, k: nat) {
    && Inv(s) && (forall t <- s.stacks :: s.stacks[t] == [])
    && OnlyFor(s, e, l) && l in Registered(s, e) && CountOf(s, l) == k > 0
  }

  /** No dispatch of e is under way. */
  predicate Settled(s: State, e: string) {
    forall t <- s.stacks :: forall f <- s.stacks[t] :: !IsOpen(f, e)
  }

  lemma {:induction false} SettledDebts(s: State, e: string, l: Listener)
    requires Settled(s, e)
    ensures Debts(s, e, l) == (0, 0)
  {
    NothingOwed(Stack(s, s.mutex), e, l);
  }

  /** A listener with count k that d dispatches of its type have taken place for, whatever the other
      goroutines do and however the handlers nest. Once the dispatches are over it has been invoked at
      least min(k, d) times, at most once a dispatch and at most seven times too often. It has been invoked
      exactly min(k, d) times if and only if no dispatch inside its own type's handlers overcommitted it. */
  lemma {:induction false} CountedInvocations(s: State, actions: seq<Action>, e: string, l: Listener, k: nat)
    requires Idle(s, e, l, k) && Run(s, actions).Some? && UndisturbedRun(s, actions, e, l)
    requires Settled(Run(s, actions).value, e)
    ensures var u := Run(s, actions).value;
            var d := Dispatches(u.log, e) - Dispatches(s.log, e);
            var i := Invocations(u.log, l) - Invocations(s.log, l);
            && Min(k, d) <= i <= d && i < k + 8
            && (i == Min(k, d) <==> !OvercommitsIn(s, actions, e, l))
            && CountOf(u, l) == k - Min(k, i) && (l in Registered(u, e) <==> i < k)
  {
    hide Inv, OnlyFor, StackQuiet, UndisturbedRun, Run, Dispatches, Findings, Invocations, Idle, Owing, Invoking,
      OvercommitsIn, Settled;
    var start := TallyOf(s, e, l);
    StartCounts(s, e, l, k);
    RunKeepsCount(s, actions, e, l, k, start);
    SettledDebts(Run(s, actions).value, e, l);
  }

  lemma {:induction false} StartCounts(s: State, e: string, l: Listener, k: nat)
    requires Idle(s, e, l, k)
    ensures CountInv(s, e, l, k, TallyOf(s, e, l)) && k > 0
  {
    hide Inv, OnlyFor, Dispatches, Findings, Invocations;
    assert Stack(s, s.mutex) == [];
  }

  // ---- without nesting -----------------------------------------------------

  /** No handler of e dispatches e again. */
  predicate Unnested(s: State, actions: seq<Action>, e: string)
    decreases |actions|
  {
    actions != [] ==>
      var fs := Stack(s, actions[0].who);
      && (fs != [] && Top(fs).op == Dispatch(e) && Top(fs).pc.Snapshot?
          ==> forall f <- fs[..|fs| - 1] :: f.op != Dispatch(e))
      && (Step(s, actions[0]).Some? ==> Unnested(Step(s, actions[0]).value, actions[1..], e))
  }

  lemma {:induction false} UnnestedStep(s: State, a: Action, e: string, l: Listener, k: nat, start: Tally)
    requires CountInv(s, e, l, k, start)
    requires var fs := Stack(s, a.who);
             fs != [] && Top(fs).op == Dispatch(e) && Top(fs).pc.Snapshot?
             ==> forall f <- fs[..|fs| - 1] :: f.op != Dispatch(e)
    ensures !Overcommits(s, a, e, l)
  {
    hide Inv, OnlyFor, StackQuiet, Dispatches, Findings, Invocations;
    var fs := Stack(s, a.who);
    if fs != [] && Top(fs).op == Dispatch(e) && Top(fs).pc.Snapshot? {
      NothingOwed(fs, e, l);
    }
  }

  lemma {:induction false} NeverOvercommits(s: State, actions: seq<Action>, e: string, l: Listener, k: nat,
      start: Tally)
    requires CountInv(s, e, l, k, start) && k > 0 && Run(s, actions).Some?
    requires UndisturbedRun(s, actions, e, l) && Unnested(s, actions, e)
    ensures !OvercommitsIn(s, actions, e, l)
    decreases |actions|
  {
    hide CountInv, Undisturbed, Overcommits, LoopStep, LockStep;
    if actions != [] {
      var a := actions[0];
      UnnestedStep(s, a, e, l, k, start);
      if a.what.Call? || IsLockPC(Top(Stack(s, a.who)).pc) {
        LockKeepsCount(s, a, e, l, k, start);
      } else {
        LoopKeepsCount(s, a, e, l, k, start);
      }
      NeverOvercommits(Step(s, a).value, actions[1..], e, l, k, start);
    }
  }

  /** When no handler of e dispatches e again, l is invoked exactly min(k, d) times. */
  lemma {:induction false} UnnestedInvocations(s: State, actions: seq<Action>, e: string, l: Listener, k: nat)
    requires Idle(s, e, l, k) && Run(s, actions).Some? && UndisturbedRun(s, actions, e, l) && Unnested(s, actions, e)
    requires Settled(Run(s, actions).value, e)
    ensures var u := Run(s, actions).value;
            var d := Dispatches(u.log, e) - Dispatches(s.log, e);
            && Invocations(u.log, l) - Invocations(s.log, l) == Min(k, d)
            && CountOf(u, l) == k - Min(k, d) && (l in Registered(u, e) <==> d < k)
  {
    hide Inv, OnlyFor, StackQuiet, UndisturbedRun, Run, Dispatches, Findings, Invocations, Idle, CountInv, TallyOf,
      OvercommitsIn, Settled, Unnested;
    StartCounts(s, e, l, k);
    CountedInvocations(s, actions, e, l, k);
    NeverOvercommits(s, actions, e, l, k, TallyOf(s, e, l));
  }
}
