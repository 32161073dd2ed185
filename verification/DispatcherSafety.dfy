/** What holds in every interleaving: lock safety, progress and snapshot dispatch. */
module DispatcherSafety {
  import opened Dispatcher
  import opened Bytes

  function Handlers(fs: seq<Frame>): nat
    decreases |fs|
  {
    if fs == [] then 0 else Handlers(fs[..|fs| - 1]) + if Top(fs).pc.Running? then 1 else 0
  }

  lemma {:induction false} HandlersBound(fs: seq<Frame>)
    requires forall i | 0 <= i < |fs| && InLoop(fs[i]) :: i < MAX_RECURSION
    ensures Handlers(fs) <= |fs| && Handlers(fs) <= MAX_RECURSION
    decreases |fs|
  {
    if fs != [] {
      HandlersBound(fs[..|fs| - 1]);
    }
  }

  lemma {:induction false} Reachable(counts: map<Listener, int>, actions: seq<Action>)
    requires Run(Fresh(counts), actions).Some?
    ensures Inv(Run(Fresh(counts), actions).value)
  {
    assert Inv(Fresh(counts));
    RunKeepsInv(Fresh(counts), actions);
  }

  /** In every reachable state at most one goroutine is inside the protected region, a non-zero owner
      id names the holder of the mutex, and the lock words are clean whenever the mutex is free. */
  lemma {:induction false} LockSafety(counts: map<Listener, int>, actions: seq<Action>)
    requires Run(Fresh(counts), actions).Some?
    ensures var s := Run(Fresh(counts), actions).value;
            && (forall t, u :: Holds(Stack(s, t)) && Holds(Stack(s, u)) ==> t == u)
            && (s.goid != 0 ==> s.goid == s.mutex && Holds(Stack(s, s.goid)))
            && (s.mutex == 0 ==> s.goid == 0 && s.recursion == 0)
  {
    Reachable(counts, actions);
  }

  /** At most eight levels run handlers, and the counter never passes nine. */
  lemma {:induction false} DepthBound(counts: map<Listener, int>, actions: seq<Action>, t: Goroutine)
    requires Run(Fresh(counts), actions).Some?
    ensures var s := Run(Fresh(counts), actions).value;
            Handlers(Stack(s, t)) <= 8 && 0 <= s.recursion <= 9
  {
    Reachable(counts, actions);
    var s := Run(Fresh(counts), actions).value;
    HandlersBound(Stack(s, t));
    var fs := Stack(s, s.mutex);
    if |fs| > 1 {
      assert InLoop(fs[|fs| - 2]);
    }
  }

  /** The holder of the mutex can always move: it never waits for itself. */
  lemma {:induction false} HolderMoves(s: State) returns (c: Choice)
    requires Inv(s) && s.mutex != 0
    ensures !c.Call? && Step(s, Action(s.mutex, c)).Some?
  {
    var t := s.mutex;
    WhereTop(s, t);
    var f := Top(Stack(s, t));
    hide Inv, StackOk, Records;
    c := Proceed;
    match f.pc {
      case Loop(rest) =>
        if rest != {} {
          var l :| l in rest;
          c := Pick(l);
        }
      case Running(_, _) => c := Return;
      case _ =>
    }
  }

  /** No deadlock: while any call is under way, some call can move. */
  lemma {:induction false} SomeoneMoves(counts: map<Listener, int>, actions: seq<Action>,
      t: Goroutine) returns (a: Action)
    requires Run(Fresh(counts), actions).Some? && Stack(Run(Fresh(counts), actions).value, t) != []
    ensures var s := Run(Fresh(counts), actions).value;
            !a.what.Call? && Stack(s, a.who) != [] && Step(s, a).Some?
  {
    Reachable(counts, actions);
    var s := Run(Fresh(counts), actions).value;
    if s.mutex != 0 {
      var c := HolderMoves(s);
      a := Action(s.mutex, c);
    } else {
      WhereTop(s, t);
      a := Action(t, Proceed);
    }
  }

  /** The depth panic comes at the ninth nested dispatch, however many other goroutines dispatch. */
  lemma {:induction false} TooDeepExactly(s: State, t: Goroutine)
    requires Inv(s) && t != 0 && Stack(s, t) != []
    requires Top(Stack(s, t)).pc.Body? && Top(Stack(s, t)).op.Dispatch?
    ensures var u := BodyStep(s, t);
            && Stack(u, t) != [] && (Top(Stack(u, t)).ending == TooDeep <==> |Stack(s, t)| > 8)
            && (Top(Stack(u, t)).pc.Snapshot? <==> |Stack(s, t)| <= 8)
  {
    WhereTop(s, t);
    var f := Top(Stack(s, t));
    hide Inv, StackOk;
    BodyWords(s, f.op);
    SetTopShape(s, BodyShared(s, f.op), t, BodyFrame(f, s.recursion + 1));
  }

  // ---- snapshot dispatch ---------------------------------------------------

  /** How a call under way may look after a step of anyone: a dispatch takes what is registered at
      its snapshot, keeps that from then on, and only ever adds to what it called. */
  predicate Persists(s: State, f: Frame, g: Frame) {
    && f.op == g.op && f.called <= g.called
    && (f.registered == g.registered || (f.pc.Snapshot? && g.registered == Registered(s, f.op.event)))
    && (f.pc.Snapshot? && g.pc != f.pc ==> g.registered == Registered(s, f.op.event))
  }

  /** How the top call of the moving goroutine changes: in the loop as LoopFrame says, elsewhere
      only its place, its hold on the lock and, at the depth check, its ending. */
  predicate Moved(s: State, f: Frame, c: Choice, g: Frame) {
    if IsLockPC(f.pc) then
      && g == f.(pc := g.pc, locked := g.locked, ending := g.ending)
      && (IsLockPC(g.pc) || g.pc.Snapshot? || g.pc.Drop?)
      && (g.ending != f.ending ==> f.pc.Body? && f.op.Dispatch? && g.ending == TooDeep)
    else LoopFrame(f, c, Registered(s, f.op.event)) == Some(g)
  }

  /** A step pushes a call, moves the top call of one goroutine, or returns from it. */
  ghost predicate Shape(s: State, a: Action, u: State, g: Frame) {
    var fs, gs := Stack(s, a.who), Stack(u, a.who);
    && (forall t :: t != a.who ==> Stack(u, t) == Stack(s, t))
    && if a.what.Call? then gs == fs + [Frame(a.what.op, Enter, false, {}, [], NotYet)] && u.finished == s.finished
       else
         && fs != []
         && if gs == fs[..|fs| - 1] then
              u.finished == s.finished + [Top(fs)] && (Top(fs).pc.Leave? || Top(fs).pc.Unlock?)
            else gs == fs[..|fs| - 1] + [g] && Moved(s, Top(fs), a.what, g) && u.finished == s.finished
  }

  lemma {:induction false} SharedStacks(s: State, f: Frame, c: Choice)
    ensures LoopShared(s, f, c).stacks == s.stacks && LoopShared(s, f, c).finished == s.finished
  {
  }

  lemma {:induction false} SetTopShape(s: State, v: State, t: Goroutine, g: Frame)
    requires Stack(s, t) != [] && v.stacks == s.stacks
    ensures Stack(SetTop(v, t, g), t) == Stack(s, t)[..|Stack(s, t)| - 1] + [g]
    ensures SetTop(v, t, g).finished == v.finished
    ensures forall r :: r != t ==> Stack(SetTop(v, t, g), r) == Stack(s, r)
  {
  }

  lemma {:induction false} LoopShape(s: State, t: Goroutine, c: Choice) returns (g: Frame)
    requires Stack(s, t) != [] && !IsLockPC(Top(Stack(s, t)).pc) && !c.Call? && LoopStep(s, t, c).Some?
    ensures Shape(s, Action(t, c), LoopStep(s, t, c).value, g)
  {
    var f := Top(Stack(s, t));
    hide LoopFrame, LoopShared, SetTop, Registered, IsLockPC;
    g := LoopFrame(f, c, Registered(s, f.op.event)).value;
    SharedStacks(s, f, c);
    SetTopShape(s, LoopShared(s, f, c), t, g);
  }

  lemma {:induction false} BodyShape(s: State, t: Goroutine) returns (g: Frame)
    requires Stack(s, t) != [] && Top(Stack(s, t)).pc.Body?
    ensures Shape(s, Action(t, Proceed), BodyStep(s, t), g)
  {
    var f := Top(Stack(s, t));
    var v := BodyShared(s, f.op);
    g := BodyFrame(f, v.recursion);
    BodyWords(s, f.op);
    hide BodyShared, SetTop;
    SetTopShape(s, v, t, g);
  }

  lemma {:induction false} LockShape(s: State, t: Goroutine) returns (g: Frame)
    requires Stack(s, t) != [] && IsLockPC(Top(Stack(s, t)).pc) && LockStep(s, t).Some?
    ensures Shape(s, Action(t, Proceed), LockStep(s, t).value, g)
  {
    hide BodyStep;
    if Top(Stack(s, t)).pc.Body? {
      g := BodyShape(s, t);
    } else {
      g := if Stack(LockStep(s, t).value, t) == [] then Top(Stack(s, t)) else Top(Stack(LockStep(s, t).value, t));
    }
  }

  lemma {:induction false} StepShape(s: State, a: Action) returns (g: Frame)
    requires Step(s, a).Some?
    ensures Shape(s, a, Step(s, a).value, g)
  {
    if a.what.Call? {
      g := Frame(a.what.op, Enter, false, {}, [], NotYet);
    } else {
      hide LoopStep, LockStep, Shape;
      var t := a.who;
      assert a == Action(t, a.what);
      if IsLockPC(Top(Stack(s, t)).pc) {
        g := LockShape(s, t);
      } else {
        g := LoopShape(s, t, a.what);
      }
    }
  }

  lemma {:induction false} MovedPersists(s: State, f: Frame, c: Choice, g: Frame)
    requires Moved(s, f, c, g)
    ensures Persists(s, f, g)
  {
  }

  /** Whatever a step adds, removes or dispatches, all calls under way persist. */
  lemma {:induction false} StepPersists(s: State, a: Action, t: Goroutine, i: nat)
    requires Step(s, a).Some?
    requires var u := Step(s, a).value; i < |Stack(s, t)| && i < |Stack(u, t)|
    ensures Persists(s, Stack(s, t)[i], Stack(Step(s, a).value, t)[i])
  {
    hide Step, Moved;
    var g := StepShape(s, a);
    var fs, u := Stack(s, a.who), Step(s, a).value;
    if t == a.who && !a.what.Call? && Stack(u, t) != fs[..|fs| - 1] {
      MovedPersists(s, Top(fs), a.what, g);
    }
  }

  /** Handlers neither panic nor stop the propagation. */
  predicate Calm(actions: seq<Action>) {
    forall a <- actions :: a.what != Panic && a.what != Stop
  }

  predicate CalmEnding(f: Frame) {
    f.ending != Panicked && f.ending != Stopped
  }

  predicate AllCalm(s: State) {
    (forall f <- s.finished :: CalmEnding(f)) && (forall t <- s.stacks :: forall f <- s.stacks[t] :: CalmEnding(f))
  }

  lemma {:induction false} StackCalm(s: State, t: Goroutine)
    requires AllCalm(s)
    ensures forall f <- Stack(s, t) :: CalmEnding(f)
  {
  }

  lemma {:induction false} MovedCalm(s: State, f: Frame, c: Choice, g: Frame)
    requires Moved(s, f, c, g) && CalmEnding(f) && c != Panic && c != Stop
    ensures CalmEnding(g)
  {
  }

  lemma {:induction false} StepCalm(s: State, a: Action)
    requires AllCalm(s) && Step(s, a).Some? && a.what != Panic && a.what != Stop
    ensures AllCalm(Step(s, a).value)
  {
    hide Step, Moved, CalmEnding;
    var g := StepShape(s, a);
    var u, fs := Step(s, a).value, Stack(s, a.who);
    StackCalm(s, a.who);
    forall t <- u.stacks, f <- u.stacks[t] ensures CalmEnding(f) {
      StackCalm(s, t);
      assert u.stacks[t] == Stack(u, t);
      if t == a.who && f !in fs {
        if a.what.Call? {
          assert f == Frame(a.what.op, Enter, false, {}, [], NotYet);
          assert CalmEnding(f) by { EnterCalm(a.what.op); }
        } else {
          assert f == g;
          MovedCalm(s, Top(fs), a.what, g);
        }
      }
    }
  }

  lemma {:induction false} EnterCalm(op: Op)
    ensures CalmEnding(Frame(op, Enter, false, {}, [], NotYet))
  {
  }

  lemma {:induction false} RunCalm(s: State, actions: seq<Action>)
    requires AllCalm(s) && Run(s, actions).Some? && Calm(actions)
    ensures AllCalm(Run(s, actions).value)
    decreases |actions|
  {
    hide AllCalm, Step;
    if actions != [] {
      StepCalm(s, actions[0]);
      RunCalm(Step(s, actions[0]).value, actions[1..]);
    }
  }

  lemma {:induction false} EachOnce(f: Frame)
    requires CalledOnce(f) && f.ending == Completed
    ensures multiset(f.called) == multiset(f.registered)
  {
    forall l ensures multiset(f.called)[l] == multiset(f.registered)[l] {
      AtMostOnce(f.called, l);
      assert l in f.called <==> l in multiset(f.called);
    }
  }

  lemma {:induction false} AtMostOnce(s: seq<Listener>, l: Listener)
    requires forall i, j | 0 <= i < j < |s| :: s[i] != s[j]
    ensures multiset(s)[l] <= 1
    decreases |s|
  {
    if s != [] {
      var n := |s| - 1;
      AtMostOnce(s[..n], l);
      assert s == s[..n] + [s[n]];
      if l == s[n] {
        assert l !in s[..n];
        assert l !in multiset(s[..n]);
      }
    }
  }

  /** Every dispatch that returns called only listeners it found registered, none of them twice; all
      of them if it completed, none if it was past the recursion limit. It completes or is past the
      limit unless a handler panics or stops the propagation. */
  lemma {:induction false} SnapshotDispatch(counts: map<Listener, int>, actions: seq<Action>, f: Frame)
    requires Run(Fresh(counts), actions).Some?
    requires f in Run(Fresh(counts), actions).value.finished && f.op.Dispatch?
    ensures CalledOnce(f) && f.ending != NotYet
    ensures f.ending == Completed ==> multiset(f.called) == multiset(f.registered)
    ensures f.ending == TooDeep ==> f.called == []
    ensures Calm(actions) ==> f.ending in {Completed, TooDeep}
  {
    var s := Run(Fresh(counts), actions).value;
    Reachable(counts, actions);
    assert Returned(f);
    if Calm(actions) {
      RunCalm(Fresh(counts), actions);
      assert CalmEnding(f);
    }
    if f.ending == Completed {
      EachOnce(f);
    }
  }
}
