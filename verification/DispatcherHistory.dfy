/** All that happens inside the lock happens in one order, as if by one goroutine alone. */
module DispatcherHistory {
  import opened Dispatcher

  /** The listeners of an event type after a history, for a dispatcher used by one goroutine. */
  function Replayed(log: seq<Note>, e: string): set<Listener>
    decreases |log|
  {
    if log == [] then {}
    else
      var before := Replayed(log[..|log| - 1], e);
      match log[|log| - 1]
      case Added(d, l) => if d == e then before + {l} else before
      case Removed(d, l) => if d == e then before - {l} else before
      case _ => before
  }

  /** Every answer and every snapshot in the history is what was registered right then. */
  predicate Legal(log: seq<Note>)
    decreases |log|
  {
    log != [] ==>
      var before := log[..|log| - 1];
      && Legal(before)
      && match log[|log| - 1]
         case Answered(e, answer) => answer == (Replayed(before, e) != {})
         case Took(e, found) => found == Replayed(before, e)
         case _ => true
  }

  ghost predicate Explains(s: State) {
    Legal(s.log) && forall e :: Registered(s, e) == Replayed(s.log, e)
  }

  lemma {:induction false} OneMore(log: seq<Note>, n: Note)
    requires Legal(log)
    requires n.Answered? ==> n.answer == (Replayed(log, n.event) != {})
    requires n.Took? ==> n.found == Replayed(log, n.event)
    ensures Legal(log + [n])
    ensures forall e :: Replayed(log + [n], e)
                        == if n.Added? && n.event == e then Replayed(log, e) + {n.listener}
                           else if n.Removed? && n.event == e then Replayed(log, e) - {n.listener}
                           else Replayed(log, e)
  {
    assert (log + [n])[..|log|] == log;
  }

  lemma {:induction false} RemoveExplains(s: State, e: string, l: Listener)
    requires Explains(s)
    ensures Explains(RemoveListener(s, e, l))
  {
    hide Legal, Replayed;
    OneMore(s.log, Removed(e, l));
  }

  lemma {:induction false} BodyExplains(s: State, op: Op)
    requires Explains(s)
    ensures Explains(BodyShared(s, op))
  {
    hide Legal, Replayed, RemoveListener;
    match op {
      case Add(e, l) => OneMore(s.log, Added(e, l));
      case Remove(e, l) => RemoveExplains(s, e, l);
      case Has(e) => OneMore(s.log, Answered(e, Registered(s, e) != {}));
      case Dispatch(_) =>
    }
  }

  lemma {:induction false} LoopExplains(s: State, f: Frame, c: Choice)
    requires Explains(s) && f.op.Dispatch?
    ensures Explains(LoopShared(s, f, c))
  {
    hide Legal, Replayed, RemoveListener;
    match f.pc {
      case Snapshot => OneMore(s.log, Took(f.op.event, Registered(s, f.op.event)));
      case Loop(_) => if c.Pick? { OneMore(s.log, Ran(c.listener)); }
      case After(l, _) => RemoveExplains(s.(counts := s.counts[l := CountOf(s, l) - 1]), f.op.event, l);
      case _ =>
    }
  }

  lemma {:induction false} SameWords(s: State, u: State)
    requires Explains(s) && u.log == s.log && u.listeners == s.listeners
    ensures Explains(u)
  {
    hide Legal, Replayed;
    assert forall e :: Registered(u, e) == Registered(s, e);
  }

  lemma {:induction false} StepExplains(s: State, a: Action)
    requires Inv(s) && Explains(s) && Step(s, a).Some?
    ensures Explains(Step(s, a).value)
  {
    var t, u := a.who, Step(s, a).value;
    hide Explains, Inv;
    if a.what.Call? {
      SameWords(s, u);
    } else {
      var f := Top(Stack(s, t));
      WhereTop(s, t);
      hide BodyShared, LoopShared, LoopFrame, Records, StackOk;
      if !IsLockPC(f.pc) {
        DispatchOnly(f);
        LoopExplains(s, f, a.what);
        SameWords(LoopShared(s, f, a.what), u);
      } else if f.pc.Body? {
        BodyExplains(s, f.op);
        SameWords(BodyShared(s, f.op), u);
      } else {
        SameWords(s, u);
      }
    }
  }

  /** Listeners, counts, history and recursion level change only by the goroutine that holds the
      mutex, whose id is then the owner. */
  lemma {:induction false} HolderActs(s: State, a: Action)
    requires Inv(s) && Step(s, a).Some?
    ensures var u := Step(s, a).value;
            u.listeners != s.listeners || u.counts != s.counts || u.log != s.log || u.recursion != s.recursion
            ==> s.mutex == a.who == s.goid
  {
    if !a.what.Call? {
      WhereTop(s, a.who);
      hide Inv, StackOk, Records, LoopShared, BodyShared, LoopFrame;
    }
  }

  lemma {:induction false} RunExplains(s: State, actions: seq<Action>)
    requires Inv(s) && Explains(s) && Run(s, actions).Some?
    ensures Explains(Run(s, actions).value)
    decreases |actions|
  {
    hide Explains, Inv, Step;
    if actions != [] {
      StepExplains(s, actions[0]);
      StepKeepsInv(s, actions[0]);
      RunExplains(Step(s, actions[0]).value, actions[1..]);
    }
  }

  /** In every interleaving, the registered listeners are those a single goroutine would have left
      that did the same additions and removals (those of exhausted counts included) in the order of
      the history, and every answer and every snapshot is what that goroutine would have seen. */
  lemma {:induction false} OneOrder(counts: map<Listener, int>, actions: seq<Action>)
    requires Run(Fresh(counts), actions).Some?
    ensures var s := Run(Fresh(counts), actions).value;
            Legal(s.log) && forall e :: Registered(s, e) == Replayed(s.log, e)
  {
    assert Inv(Fresh(counts)) && Explains(Fresh(counts));
    hide Inv;
    RunExplains(Fresh(counts), actions);
  }
}
