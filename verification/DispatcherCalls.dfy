/** What the calls do, and that each leaves its trace: additions, removals and answers, ended dispatches, and
    listeners without a count. */
module DispatcherCalls {
  import opened Dispatcher
  import opened DispatcherSafety
  import opened DispatcherCounts

  // ---- the protected bodies ------------------------------------------------

  /** What the body of a call does to the listeners and the history. */
  lemma {:induction false} BodyEffect(s: State, t: Goroutine)
    requires Stack(s, t) != [] && Top(Stack(s, t)).pc.Body? && t != 0
    ensures Step(s, Action(t, Proceed)).Some?
    ensures var u := Step(s, Action(t, Proceed)).value;
            u.counts == s.counts &&
            match Top(Stack(s, t)).op
            case Add(e, l) =>
              && Registered(u, e) == Registered(s, e) + {l}
              && (forall d | d != e :: Registered(u, d) == Registered(s, d))
              && u.log == s.log + [Added(e, l)]
            case Remove(e, l) =>
              && Registered(u, e) == Registered(s, e) - {l}
              && (forall d | d != e :: Registered(u, d) == Registered(s, d))
              && (u.log == s.log || u.log == s.log + [Removed(e, l)])
            case Has(e) => u.listeners == s.listeners && u.log == s.log + [Answered(e, Registered(s, e) != {})]
            case Dispatch(_) => u.listeners == s.listeners && u.log == s.log
  {
    var f := Top(Stack(s, t));
    var v := BodyShared(s, f.op);
    TopOnly(v, t, BodyFrame(f, v.recursion));
    BodyWords(s, f.op);
    hide SetTop, BodyFrame;
  }

  /** Changing the top call changes nothing else. */
  lemma {:induction false} TopOnly(s: State, t: Goroutine, g: Frame)
    requires Stack(s, t) != []
    ensures var u := SetTop(s, t, g);
            && u.listeners == s.listeners && u.counts == s.counts && u.log == s.log && u.mutex == s.mutex
            && u.finished == s.finished
  {
  }

  // ---- one note for each call ----------------------------------------------

  /** The note an addition or a query leaves. */
  predicate NoteOf(n: Note, op: Op) {
    match op
    case Add(e, l) => n == Added(e, l)
    case Has(e) => n.Answered? && n.event == e
    case _ => false
  }

  function Notes(log: seq<Note>, op: Op): nat
    decreases |log|
  {
    if log == [] then 0 else Notes(log[..|log| - 1], op) + if NoteOf(log[|log| - 1], op) then 1 else 0
  }

  function CallsOf(fs: seq<Frame>, op: Op): nat
    decreases |fs|
  {
    if fs == [] then 0 else CallsOf(fs[..|fs| - 1], op) + if Top(fs).op == op then 1 else 0
  }

  /** The holder of the mutex is in such a call, behind its body. */
  predicate Leaving(s: State, op: Op) {
    var fs := Stack(s, s.mutex);
    fs != [] && Top(fs).op == op && (Top(fs).pc.Leave? || Top(fs).pc.Unlock?)
  }

  predicate Noted(s: State, op: Op) {
    Notes(s.log, op) == CallsOf(s.finished, op) + if Leaving(s, op) then 1 else 0
  }

  lemma {:induction false} NotesGrow(log: seq<Note>, n: Note, op: Op)
    ensures Notes(log + [n], op) == Notes(log, op) + if NoteOf(n, op) then 1 else 0
  {
    assert (log + [n])[..|log|] == log;
  }

  lemma {:induction false} CallsGrow(fs: seq<Frame>, f: Frame, op: Op)
    ensures CallsOf(fs + [f], op) == CallsOf(fs, op) + if f.op == op then 1 else 0
  {
    assert (fs + [f])[..|fs|] == fs;
  }

  lemma {:induction false} RemoveNotes(s: State, e: string, l: Listener, op: Op)
    requires op.Add? || op.Has?
    ensures Notes(RemoveListener(s, e, l).log, op) == Notes(s.log, op)
  {
    hide Notes;
    NotesGrow(s.log, Removed(e, l), op);
  }

  /** The dispatch loop leaves no such note. */
  lemma {:induction false} LoopNotes(s: State, f: Frame, c: Choice, op: Op)
    requires f.op.Dispatch? && (op.Add? || op.Has?)
    ensures Notes(LoopShared(s, f, c).log, op) == Notes(s.log, op)
  {
    hide Notes;
    match f.pc {
      case Snapshot => NotesGrow(s.log, Took(f.op.event, Registered(s, f.op.event)), op);
      case Loop(_) => if c.Pick? { NotesGrow(s.log, Ran(c.listener), op); }
      case After(l, _) => RemoveNotes(s.(counts := s.counts[l := CountOf(s, l) - 1]), f.op.event, l, op);
      case _ =>
    }
  }

  lemma {:induction false} BodyNotes(s: State, call: Op, op: Op)
    requires op.Add? || op.Has?
    ensures Notes(BodyShared(s, call).log, op) == Notes(s.log, op) + if call == op then 1 else 0
  {
    hide Notes;
    match call {
      case Add(e, l) => NotesGrow(s.log, Added(e, l), op);
      case Remove(e, l) => RemoveNotes(s, e, l, op);
      case Has(e) => NotesGrow(s.log, Answered(e, Registered(s, e) != {}), op);
      case Dispatch(_) =>
    }
  }

  /** Calls start, and the dispatch loop turns. */
  lemma {:induction false} OtherNoted(s: State, a: Action, op: Op)
    requires Inv(s) && Noted(s, op) && Step(s, a).Some? && (op.Add? || op.Has?)
    requires a.what.Call? || !IsLockPC(Top(Stack(s, a.who)).pc)
    ensures Noted(Step(s, a).value, op)
  {
    hide Notes, CallsOf;
    var t := a.who;
    if a.what.Call? {
      EmptyZero(s);
    } else {
      var f := Top(Stack(s, t));
      WhereTop(s, t);
      hide Inv, StackOk, Records, LoopFrame, SetTop;
      DispatchOnly(f);
      LoopNotes(s, f, a.what, op);
      LoopLeaves(f, a.what, Registered(s, f.op.event));
      SharedStacks(s, f, a.what);
      var v, g := LoopShared(s, f, a.what), LoopFrame(f, a.what, Registered(s, f.op.event)).value;
      SameMutex(s, f, a.what);
      SetTopShape(s, v, t, g);
      TopOnly(v, t, g);
    }
  }

  lemma {:induction false} SameMutex(s: State, f: Frame, c: Choice)
    ensures LoopShared(s, f, c).mutex == s.mutex
  {
  }

  lemma {:induction false} LoopLeaves(f: Frame, c: Choice, found: set<Listener>)
    requires LoopFrame(f, c, found).Some?
    ensures LoopFrame(f, c, found).value.op == f.op
  {
  }

  lemma {:induction false} EnterNoted(s: State, t: Goroutine, op: Op)
    requires Inv(s) && Noted(s, op) && t != 0 && Stack(s, t) != [] && LockStep(s, t).Some?
    requires Top(Stack(s, t)).pc.Enter? || Top(Stack(s, t)).pc.WantLock? || Top(Stack(s, t)).pc.StoreId?
    ensures Noted(LockStep(s, t).value, op)
  {
    var f := Top(Stack(s, t));
    WhereTop(s, t);
    EmptyZero(s);
    hide Notes, CallsOf, Inv, StackOk, Records;
  }

  lemma {:induction false} BodyHolds(s: State, t: Goroutine)
    requires Inv(s) && t != 0 && Stack(s, t) != [] && Top(Stack(s, t)).pc.Body?
    ensures s.mutex == t
  {
    WhereTop(s, t);
  }

  lemma {:induction false} BehindBody(f: Frame, recursion: int)
    ensures var g := BodyFrame(f, recursion); g.op == f.op && (g.pc.Leave? || g.pc.Unlock? <==> !f.op.Dispatch?)
  {
  }

  lemma {:induction false} BodyNoted(s: State, t: Goroutine, op: Op)
    requires Inv(s) && Noted(s, op) && t != 0 && Stack(s, t) != [] && Top(Stack(s, t)).pc.Body?
    requires op.Add? || op.Has?
    ensures Noted(BodyStep(s, t), op)
  {
    hide Notes, CallsOf, Inv, BodyShared, BodyFrame, SetTop;
    var f := Top(Stack(s, t));
    var v := BodyShared(s, f.op);
    BodyHolds(s, t);
    BodyNotes(s, f.op, op);
    BodyWords(s, f.op);
    BehindBody(f, v.recursion);
    SetTopShape(s, v, t, BodyFrame(f, v.recursion));
    TopOnly(v, t, BodyFrame(f, v.recursion));
  }

  /** A call returns. */
  lemma {:induction false} PopShape(s: State, t: Goroutine)
    requires Stack(s, t) != []
    ensures var u, fs := Pop(s, t), Stack(s, t);
            && Stack(u, t) == fs[..|fs| - 1] && (forall r | r != t :: Stack(u, r) == Stack(s, r))
            && u.finished == s.finished + [Top(fs)] && u.log == s.log && u.mutex == s.mutex
  {
  }

  lemma {:induction false} PopNoted(s: State, v: State, t: Goroutine, op: Op)
    requires Inv(s) && Noted(s, op) && t != 0 && Stack(s, t) != [] && s.mutex == t
    requires Top(Stack(s, t)).pc.Leave? || Top(Stack(s, t)).pc.Unlock?
    requires v == s || v == s.(mutex := 0)
    ensures Noted(Pop(v, t), op)
  {
    hide Notes, CallsOf, Inv, Pop;
    CallsGrow(s.finished, Top(Stack(s, t)), op);
    EmptyZero(s);
    assert Stack(v, t) == Stack(s, t) && Stack(v, 0) == Stack(s, 0);
    PopShape(v, t);
    if |Stack(s, t)| > 1 {
      BelowRuns(s, t);
    }
  }

  lemma {:induction false} LeaveHolds(s: State, t: Goroutine)
    requires Inv(s) && t != 0 && Stack(s, t) != []
    requires Top(Stack(s, t)).pc.Leave? || Top(Stack(s, t)).pc.Unlock?
    ensures s.mutex == t
  {
    WhereTop(s, t);
  }

  lemma {:induction false} LeaveNoted(s: State, t: Goroutine, op: Op)
    requires Inv(s) && Noted(s, op) && t != 0 && Stack(s, t) != []
    requires Top(Stack(s, t)).pc.Leave? || Top(Stack(s, t)).pc.Unlock?
    ensures Noted(LockStep(s, t).value, op)
  {
    hide Notes, CallsOf, Inv, Pop, SetTop;
    LeaveHolds(s, t);
    var f := Top(Stack(s, t));
    if f.pc.Leave? && f.locked {
      SetTopShape(s, s.(goid := 0), t, f.(pc := Unlock));
      TopOnly(s.(goid := 0), t, f.(pc := Unlock));
    } else {
      PopNoted(s, if f.pc.Unlock? then s.(mutex := 0) else s, t, op);
    }
  }

  /** Locking, bodies and unlocking. */
  lemma {:induction false} LockNoted(s: State, t: Goroutine, op: Op)
    requires Inv(s) && Noted(s, op) && t != 0 && (op.Add? || op.Has?)
    requires Stack(s, t) != [] && IsLockPC(Top(Stack(s, t)).pc) && LockStep(s, t).Some?
    ensures Noted(LockStep(s, t).value, op)
  {
    hide Noted, Inv, BodyStep;
    var f := Top(Stack(s, t));
    if f.pc.Body? {
      BodyNoted(s, t, op);
    } else if f.pc.Leave? || f.pc.Unlock? {
      LeaveNoted(s, t, op);
    } else {
      EnterNoted(s, t, op);
    }
  }

  /** Below the top of a stack handlers run. */
  lemma {:induction false} BelowRuns(s: State, t: Goroutine)
    requires Inv(s) && |Stack(s, t)| > 1
    ensures Stack(s, t)[|Stack(s, t)| - 2].pc.Running?
  {
  }

  lemma {:induction false} RunNoted(s: State, actions: seq<Action>, op: Op)
    requires Inv(s) && Noted(s, op) && Run(s, actions).Some? && (op.Add? || op.Has?)
    ensures Noted(Run(s, actions).value, op)
    decreases |actions|
  {
    hide Noted, Inv, LockStep, LoopStep;
    if actions != [] {
      var a := actions[0];
      StepKeepsInv(s, a);
      if a.what.Call? || !IsLockPC(Top(Stack(s, a.who)).pc) {
        OtherNoted(s, a, op);
      } else {
        LockNoted(s, a.who, op);
      }
      RunNoted(Step(s, a).value, actions[1..], op);
    }
  }

  /** In every interleaving each addition and each query has left exactly one note once it has returned or
      is past its body, and none before. */
  lemma {:induction false} OneNoteEach(counts: map<Listener, int>, actions: seq<Action>, op: Op)
    requires Run(Fresh(counts), actions).Some? && (op.Add? || op.Has?)
    ensures var s := Run(Fresh(counts), actions).value;
            Notes(s.log, op) == CallsOf(s.finished, op) + if Leaving(s, op) then 1 else 0
  {
    assert Inv(Fresh(counts)) && Noted(Fresh(counts), op);
    hide Inv, Noted;
    RunNoted(Fresh(counts), actions, op);
    NotedMeans(Run(Fresh(counts), actions).value, op);
  }

  lemma {:induction false} NotedMeans(s: State, op: Op)
    requires Noted(s, op)
    ensures Notes(s.log, op) == CallsOf(s.finished, op) + if Leaving(s, op) then 1 else 0
  {
  }

  // ---- dispatches that end -------------------------------------------------

  predicate SameEnd(f: Frame, g: Frame) {
    g.op == f.op && g.called == f.called && g.ending == f.ending && g.registered == f.registered
  }

  /** A handler that panics, and one that stops the propagation, ends its dispatch. */
  lemma {:induction false} StopEnds(s: State, a: Action)
    requires Step(s, a).Some? && (a.what == Panic || a.what == Stop)
    ensures var fs, gs := Stack(s, a.who), Stack(Step(s, a).value, a.who);
            && fs != [] && |gs| == |fs| && Top(gs).ending == (if a.what == Panic then Panicked else Stopped)
            && Top(gs).called == Top(fs).called
  {
    var fs := Stack(s, a.who);
    var f := Top(fs);
    SharedStacks(s, f, a.what);
    SetTopShape(s, LoopShared(s, f, a.what), a.who, LoopFrame(f, a.what, Registered(s, f.op.event)).value);
    hide LoopShared, SetTop;
  }

  /** A call that has ended is still under way or has returned, with the same listeners called. */
  ghost predicate Ends(s: State, t: Goroutine, i: nat, f: Frame) {
    (i < |Stack(s, t)| && SameEnd(f, Stack(s, t)[i])) || (exists g <- s.finished :: SameEnd(f, g))
  }

  lemma {:induction false} EndedMoves(s: State, f: Frame, c: Choice, g: Frame)
    requires Moved(s, f, c, g) && Records(f) && f.ending != NotYet
    ensures SameEnd(f, g)
  {
  }

  lemma {:induction false} StepEnds(s: State, a: Action, t: Goroutine, i: nat, f: Frame)
    requires Inv(s) && Step(s, a).Some? && Ends(s, t, i, f) && f.ending != NotYet
    ensures Ends(Step(s, a).value, t, i, f)
  {
    var g := StepShape(s, a);
    var fs, u := Stack(s, a.who), Step(s, a).value;
    if i < |Stack(s, t)| {
      StackRecords(s, t, i);
    }
    hide Step, Moved, Inv, Records, LoopFrame;
    if i < |Stack(s, t)| && SameEnd(f, Stack(s, t)[i]) {
      if t == a.who && !a.what.Call? && i == |fs| - 1 {
        if Stack(u, t) == fs[..|fs| - 1] {
          assert Top(fs) in u.finished;
        } else {
          EndedMoves(s, Top(fs), a.what, g);
        }
      }
    } else {
      var h :| h in s.finished && SameEnd(f, h);
      assert h in u.finished;
    }
  }

  lemma {:induction false} StackRecords(s: State, t: Goroutine, i: nat)
    requires Inv(s) && i < |Stack(s, t)|
    ensures Records(Stack(s, t)[i])
  {
    assert StackOk(Stack(s, t));
    hide Records;
    assert Stack(s, t)[i] in Stack(s, t);
  }

  lemma {:induction false} RunEnds(s: State, actions: seq<Action>, t: Goroutine, i: nat, f: Frame)
    requires Inv(s) && Run(s, actions).Some? && Ends(s, t, i, f) && f.ending != NotYet
    ensures Ends(Run(s, actions).value, t, i, f)
    decreases |actions|
  {
    hide Inv, Step, Ends;
    if actions != [] {
      StepKeepsInv(s, actions[0]);
      StepEnds(s, actions[0], t, i, f);
      RunEnds(Step(s, actions[0]).value, actions[1..], t, i, f);
    }
  }

  /** After a handler panicked or stopped the propagation, its dispatch calls nobody any more: whatever is
      done next, it is still there or has returned with the same listeners called. */
  lemma {:induction false} StoppedForGood(s: State, a: Action, actions: seq<Action>)
    requires Inv(s) && Step(s, a).Some? && (a.what == Panic || a.what == Stop)
    requires Run(Step(s, a).value, actions).Some?
    ensures var n := |Stack(s, a.who)|;
            && n > 0 && |Stack(Step(s, a).value, a.who)| == n
            && var f := Top(Stack(Step(s, a).value, a.who));
               && f.called == Top(Stack(s, a.who)).called
               && Ends(Run(Step(s, a).value, actions).value, a.who, n - 1, f)
  {
    hide Inv, Step, Run, LoopFrame;
    StopEnds(s, a);
    StepKeepsInv(s, a);
    RunEnds(Step(s, a).value, actions, a.who, |Stack(s, a.who)| - 1, Top(Stack(Step(s, a).value, a.who)));
  }

  // ---- listeners without a count -------------------------------------------

  /** l is registered for e and has no count to use up. */
  predicate Unlimited(t: Tally) {
    t.registered && t.count <= 0
  }

  /** No step of the run is the body of a removal of l from e. */
  predicate Unremoved(s: State, actions: seq<Action>, e: string, l: Listener)
    decreases |actions|
  {
    actions != [] ==>
      var fs := Stack(s, actions[0].who);
      && (fs != [] && Top(fs).pc.Body? ==> Top(fs).op != Remove(e, l))
      && (Step(s, actions[0]).Some? ==> Unremoved(Step(s, actions[0]).value, actions[1..], e, l))
  }

  lemma {:induction false} BodyUnlimited(s: State, op: Op, e: string, l: Listener)
    requires Unlimited(TallyOf(s, e, l)) && op != Remove(e, l)
    ensures TallyOf(BodyShared(s, op), e, l) == TallyOf(s, e, l)
  {
    hide Dispatches, Findings, Invocations;
    match op {
      case Add(d, x) => LogGrows(s.log, Added(d, x), e, l);
      case Remove(d, x) => LogGrows(s.log, Removed(d, x), e, l);
      case Has(d) => LogGrows(s.log, Answered(d, Registered(s, d) != {}), e, l);
      case Dispatch(_) =>
    }
  }

  lemma {:induction false} SameTally(s: State, u: State, e: string, l: Listener)
    requires u.log == s.log && u.counts == s.counts && u.listeners == s.listeners
    ensures TallyOf(u, e, l) == TallyOf(s, e, l)
  {
    hide Dispatches, Findings, Invocations;
  }

  lemma {:induction false} LockWords(s: State, t: Goroutine)
    requires Stack(s, t) != [] && LockStep(s, t).Some? && !Top(Stack(s, t)).pc.Body?
    ensures var u := LockStep(s, t).value; u.log == s.log && u.counts == s.counts && u.listeners == s.listeners
  {
  }

  lemma {:induction false} LockUnlimited(s: State, t: Goroutine, e: string, l: Listener)
    requires Stack(s, t) != [] && LockStep(s, t).Some? && Unlimited(TallyOf(s, e, l))
    requires Top(Stack(s, t)).pc.Body? ==> Top(Stack(s, t)).op != Remove(e, l)
    ensures TallyOf(LockStep(s, t).value, e, l) == TallyOf(s, e, l)
  {
    hide TallyOf, BodyShared, BodyFrame, SetTop, Pop, Goto;
    var f := Top(Stack(s, t));
    if f.pc.Body? {
      var v := BodyShared(s, f.op);
      BodyUnlimited(s, f.op, e, l);
      BodyWords(s, f.op);
      TopOnly(v, t, BodyFrame(f, v.recursion));
      SameTally(v, SetTop(v, t, BodyFrame(f, v.recursion)), e, l);
    } else {
      LockWords(s, t);
      SameTally(s, LockStep(s, t).value, e, l);
    }
  }

  /** The dispatch loop keeps such a listener, and a snapshot of its type finds it. */
  lemma {:induction false} LoopUnlimited(s: State, t: Goroutine, c: Choice, e: string, l: Listener)
    requires Inv(s) && t != 0 && Stack(s, t) != [] && !IsLockPC(Top(Stack(s, t)).pc) && LoopStep(s, t, c).Some?
    requires Unlimited(TallyOf(s, e, l))
    ensures var v, u := TallyOf(s, e, l), TallyOf(LoopStep(s, t, c).value, e, l);
            && Unlimited(u) && u.count == v.count
            && u.dispatches >= v.dispatches && u.found - v.found == u.dispatches - v.dispatches
  {
    hide Inv, TallyOf, LoopShared, LoopFrame, SetTop, CountDown;
    var f := Top(Stack(s, t));
    LoopIsDispatch(s, t);
    LoopTally(s, f, c, e, l);
    SetTopTally(LoopShared(s, f, c), t, LoopFrame(f, c, Registered(s, f.op.event)).value, e, l);
  }

  lemma {:induction false} LoopIsDispatch(s: State, t: Goroutine)
    requires Inv(s) && t != 0 && Stack(s, t) != [] && !IsLockPC(Top(Stack(s, t)).pc)
    ensures Top(Stack(s, t)).op.Dispatch?
  {
    WhereTop(s, t);
    DispatchOnly(Top(Stack(s, t)));
  }

  /** A step keeps such a listener, and a dispatch that takes place finds it. */
  lemma {:induction false} StepUnlimited(s: State, a: Action, e: string, l: Listener)
    requires Inv(s) && Step(s, a).Some? && Unlimited(TallyOf(s, e, l))
    requires Stack(s, a.who) != [] && Top(Stack(s, a.who)).pc.Body? ==> Top(Stack(s, a.who)).op != Remove(e, l)
    ensures var t, u := TallyOf(s, e, l), TallyOf(Step(s, a).value, e, l);
            && Unlimited(u) && u.count == t.count
            && u.dispatches >= t.dispatches && u.found - t.found == u.dispatches - t.dispatches
  {
    hide Inv, TallyOf, LoopStep, LockStep;
    if a.what.Call? {
      CallTally(s, a.who, a.what.op, e, l);
    } else if !IsLockPC(Top(Stack(s, a.who)).pc) {
      LoopUnlimited(s, a.who, a.what, e, l);
    } else {
      LockUnlimited(s, a.who, e, l);
    }
  }

  /** A listener without a count stays until it is removed, and every dispatch finds it. */
  lemma {:induction false} UnlimitedStays(s: State, actions: seq<Action>, e: string, l: Listener)
    requires Inv(s) && Run(s, actions).Some? && Unremoved(s, actions, e, l)
    requires l in Registered(s, e) && (l in s.counts ==> s.counts[l] <= 0)
    ensures var u := Run(s, actions).value;
            && l in Registered(u, e) && (l in u.counts ==> u.counts[l] <= 0)
            && Dispatches(u.log, e) >= Dispatches(s.log, e)
            && Findings(u.log, e, l) - Findings(s.log, e, l) == Dispatches(u.log, e) - Dispatches(s.log, e)
    decreases |actions|
  {
    hide Inv, Step, Dispatches, Findings, Invocations;
    if actions != [] {
      StepKeepsInv(s, actions[0]);
      StepUnlimited(s, actions[0], e, l);
      UnlimitedStays(Step(s, actions[0]).value, actions[1..], e, l);
    }
  }
}
