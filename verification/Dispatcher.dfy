/** The event dispatcher as interleaved atomic steps of any number of goroutines. */
module Dispatcher {
  import opened Bytes

  const MAX_RECURSION := 8

  /** A goroutine id, never 0. */
  type Goroutine = nat
  type Listener = nat

  datatype Op =
    | Add(event: string, listener: Listener)
    | Remove(event: string, listener: Listener)
    | Has(event: string)
    | Dispatch(event: string)

  /** Where a call is. Enter compares the owner id; WantLock, StoreId, ClearId and Unlock are the
      lock and its deferred release; Body is the protected body (for Dispatch, counting the level);
      Drop undoes the counting. */
  datatype PC =
    | Enter | WantLock | StoreId | Body
    | Snapshot | Loop(rest: set<Listener>) | Running(current: Listener, rest: set<Listener>)
    | After(current: Listener, rest: set<Listener>) | Check(rest: set<Listener>)
    | Drop | Leave | Unlock

  datatype Ending = NotYet | Completed | Stopped | Panicked | TooDeep

  /** One call. registered and called record which listeners a dispatch found and invoked. */
  datatype Frame = Frame(op: Op, pc: PC, locked: bool, registered: set<Listener>, called: seq<Listener>, ending: Ending)

  /** What happened inside the lock, in order. */
  datatype Note =
    | Added(event: string, listener: Listener)
    | Removed(event: string, listener: Listener)
    | Answered(event: string, answer: bool)
    | Took(event: string, found: set<Listener>)
    | Ran(listener: Listener)

  /** mutex is its holder, 0 when free. A stack has the outermost call first. */
  datatype State = State(mutex: nat, goid: nat, recursion: int, listeners: map<string, set<Listener>>,
                         counts: map<Listener, int>, stacks: map<Goroutine, seq<Frame>>,
                         finished: seq<Frame>, log: seq<Note>)

  /** What the scheduler, the handlers and the map iteration choose. */
  datatype Choice = Call(op: Op) | Proceed | Pick(listener: Listener) | Return | Panic | Stop

  datatype Action = Action(who: Goroutine, what: Choice)

  function Stack(s: State, t: Goroutine): seq<Frame> {
    if t in s.stacks then s.stacks[t] else []
  }

  function Registered(s: State, e: string): set<Listener> {
    if e in s.listeners then s.listeners[e] else {}
  }

  function CountOf(s: State, l: Listener): int {
    if l in s.counts then s.counts[l] else 0
  }

  function Top(fs: seq<Frame>): Frame
    requires fs != []
  {
    fs[|fs| - 1]
  }

  // ---- steps ---------------------------------------------------------------

  function SetTop(s: State, t: Goroutine, f: Frame): State
    requires Stack(s, t) != []
  {
    var fs := Stack(s, t);
    s.(stacks := s.stacks[t := fs[..|fs| - 1] + [f]])
  }

  function Push(s: State, t: Goroutine, f: Frame): State {
    s.(stacks := s.stacks[t := Stack(s, t) + [f]])
  }

  /** The call returns. */
  function Pop(s: State, t: Goroutine): State
    requires Stack(s, t) != []
  {
    var fs := Stack(s, t);
    s.(stacks := s.stacks[t := fs[..|fs| - 1]], finished := s.finished + [Top(fs)])
  }

  function Goto(s: State, t: Goroutine, p: PC): State
    requires Stack(s, t) != []
  {
    SetTop(s, t, Top(Stack(s, t)).(pc := p))
  }

  function RemoveListener(s: State, e: string, l: Listener): State {
    if e !in s.listeners then s
    else s.(listeners := s.listeners[e := s.listeners[e] - {l}], log := s.log + [Removed(e, l)])
  }

  /** The protected body: what it does to the shared variables. */
  function BodyShared(s: State, op: Op): State {
    match op
    case Add(e, l) => s.(listeners := s.listeners[e := Registered(s, e) + {l}], log := s.log + [Added(e, l)])
    case Remove(e, l) => RemoveListener(s, e, l)
    case Has(e) => s.(log := s.log + [Answered(e, Registered(s, e) != {})])
    case Dispatch(_) => s.(recursion := s.recursion + 1)
  }

  /** A dispatch goes on to its snapshot, or panics when it is nested too deep. */
  function BodyFrame(f: Frame, recursion: int): Frame {
    if !f.op.Dispatch? then f.(pc := Leave)
    else if recursion > MAX_RECURSION then f.(pc := Drop, ending := TooDeep)
    else f.(pc := Snapshot)
  }

  function BodyStep(s: State, t: Goroutine): State
    requires Stack(s, t) != []
  {
    var f := Top(Stack(s, t));
    var v := BodyShared(s, f.op);
    SetTop(v, t, BodyFrame(f, v.recursion))
  }

  /** After a handler: a positive count goes down, and at 0 the listener is removed. */
  function CountStep(s: State, e: string, l: Listener): State {
    if CountOf(s, l) > 0 then
      var counted := s.(counts := s.counts[l := CountOf(s, l) - 1]);
      if CountOf(s, l) == 1 then RemoveListener(counted, e, l) else counted
    else s
  }

  /** The dispatch loop: how its own variables move. found is what is registered now. */
  function LoopFrame(f: Frame, c: Choice, found: set<Listener>): Option<Frame> {
    match f.pc
    case Snapshot => if c == Proceed then Some(f.(pc := Loop(found), registered := found)) else None
    case Loop(rest) =>
      if rest == {} && c == Proceed then Some(f.(pc := Drop, ending := Completed))
      else if c.Pick? && c.listener in rest then
        Some(f.(pc := Running(c.listener, rest - {c.listener}), called := f.called + [c.listener]))
      else None
    case Running(l, rest) =>
      if c == Return then Some(f.(pc := After(l, rest)))
      else if c == Panic then Some(f.(pc := Drop, ending := Panicked))
      else None
    case After(l, rest) => if c == Proceed then Some(f.(pc := Check(rest))) else None
    case Check(rest) =>
      if c == Proceed then Some(f.(pc := Loop(rest)))
      else if c == Stop then Some(f.(pc := Drop, ending := Stopped))
      else None
    case Drop => if c == Proceed then Some(f.(pc := Leave)) else None
    case _ => None
  }

  /** The dispatch loop: what it does to the shared variables. */
  function LoopShared(s: State, f: Frame, c: Choice): State {
    match f.pc
    case Snapshot => s.(log := s.log + [Took(f.op.event, Registered(s, f.op.event))])
    case Loop(_) => if c.Pick? then s.(log := s.log + [Ran(c.listener)]) else s
    case After(l, _) => CountStep(s, f.op.event, l)
    case Drop => s.(recursion := s.recursion - 1)
    case _ => s
  }

  /** A step of the dispatch loop. */
  function LoopStep(s: State, t: Goroutine, c: Choice): Option<State>
    requires Stack(s, t) != []
  {
    var f := Top(Stack(s, t));
    match LoopFrame(f, c, Registered(s, f.op.event))
    case None => None
    case Some(g) => Some(SetTop(LoopShared(s, f, c), t, g))
  }

  /** A step of taking or releasing the lock, or of the body. */
  function LockStep(s: State, t: Goroutine): Option<State>
    requires Stack(s, t) != []
  {
    var f := Top(Stack(s, t));
    match f.pc
    case Enter => Some(Goto(s, t, if s.goid == t then Body else WantLock))
    case WantLock => if s.mutex == 0 then Some(SetTop(s.(mutex := t), t, f.(pc := StoreId, locked := true))) else None
    case StoreId => Some(Goto(s.(goid := t), t, Body))
    case Body => Some(BodyStep(s, t))
    case Leave => if f.locked then Some(Goto(s.(goid := 0), t, Unlock)) else Some(Pop(s, t))
    case Unlock => Some(Pop(s.(mutex := 0), t))
    case _ => None
  }

  predicate IsLockPC(p: PC) {
    p.Enter? || p.WantLock? || p.StoreId? || p.Body? || p.Leave? || p.Unlock?
  }

  /** One atomic step of goroutine t, if it is enabled. A goroutine outside the dispatcher or inside
      a handler may start a call. */
  function Step(s: State, a: Action): Option<State> {
    var t, fs := a.who, Stack(s, a.who);
    if t == 0 then None
    else if a.what.Call? then
      if fs == [] || Top(fs).pc.Running? then Some(Push(s, t, Frame(a.what.op, Enter, false, {}, [], NotYet))) else None
    else if fs == [] then None
    else if !IsLockPC(Top(fs).pc) then LoopStep(s, t, a.what)
    else if a.what == Proceed then LockStep(s, t)
    else None
  }

  function Run(s: State, actions: seq<Action>): Option<State>
    decreases |actions|
  {
    if actions == [] then Some(s)
    else match Step(s, actions[0])
      case None => None
      case Some(u) => Run(u, actions[1..])
  }

  /** A fresh dispatcher with listeners that were created with these counts. */
  function Fresh(counts: map<Listener, int>): State {
    State(0, 0, 0, map[], counts, map[], [], [])
  }

  // ---- the invariant -------------------------------------------------------

  /** The call has counted its level and not yet undone it. */
  predicate Counted(f: Frame) {
    f.pc.Snapshot? || f.pc.Loop? || f.pc.Running? || f.pc.After? || f.pc.Check? || f.pc.Drop?
  }

  predicate InLoop(f: Frame) {
    Counted(f) && f.pc != Drop
  }

  /** What a dispatch has called so far, against what it found registered. */
  predicate CalledOnce(f: Frame) {
    && (forall i, j | 0 <= i < j < |f.called| :: f.called[i] != f.called[j])
    && (forall l <- f.called :: l in f.registered)
    && (f.ending == Completed ==> forall l <- f.registered :: l in f.called)
  }

  predicate Left(f: Frame, rest: set<Listener>) {
    && (forall l <- rest :: l in f.registered && l !in f.called)
    && (forall l <- f.registered :: l in rest || l in f.called)
  }

  predicate NotStarted(f: Frame) {
    f.pc.Enter? || f.pc.WantLock? || f.pc.StoreId? || f.pc.Body? || f.pc.Snapshot?
  }

  predicate Records(f: Frame) {
    && CalledOnce(f)
    && (NotStarted(f) ==> f.called == [] && f.ending == NotYet)
    && (f.pc.Loop? || f.pc.Running? || f.pc.After? || f.pc.Check? ==> f.ending == NotYet && Left(f, f.pc.rest))
    && (f.pc.Running? || f.pc.After? ==> f.pc.current in f.called)
    && (f.pc.Drop? || (f.op.Dispatch? && (f.pc.Leave? || f.pc.Unlock?)) ==> f.ending != NotYet)
    && (f.ending == TooDeep ==> f.called == [])
    && (Counted(f) ==> f.op.Dispatch?)
  }

  /** The outermost call holds the mutex from its lock to its unlock. */
  predicate Holds(fs: seq<Frame>) {
    fs != [] && !fs[0].pc.Enter? && !fs[0].pc.WantLock?
  }

  /** Only the outermost call ever waits for the mutex or owns it; the calls below the top are
      dispatches running a handler, and at most MAX_RECURSION levels are past the depth check. */
  predicate StackOk(fs: seq<Frame>) {
    && (forall f <- fs :: Records(f))
    && (forall i | 0 <= i < |fs| - 1 :: fs[i].pc.Running?)
    && (forall i | 0 < i < |fs| :: !fs[i].locked && !fs[i].pc.WantLock? && !fs[i].pc.StoreId? && !fs[i].pc.Unlock?)
    && (fs != [] ==> (fs[0].locked <==> Holds(fs)))
    && (forall i | 0 <= i < |fs| && InLoop(fs[i]) :: i < MAX_RECURSION)
  }

  function Depth(fs: seq<Frame>): int {
    if fs == [] then 0 else |fs| - 1 + if Counted(Top(fs)) then 1 else 0
  }

  /** The lock words against the stack of the mutex holder. */
  predicate Owned(s: State) {
    var fs := Stack(s, s.mutex);
    if s.mutex == 0 then s.goid == 0 && s.recursion == 0
    else Holds(fs) && s.recursion == Depth(fs) && s.goid == if fs[0].pc.StoreId? || fs[0].pc.Unlock? then 0 else s.mutex
  }

  predicate Returned(f: Frame) {
    Records(f) && (f.pc.Leave? || f.pc.Unlock?)
  }

  predicate Inv(s: State) {
    && (forall t <- s.stacks :: StackOk(s.stacks[t]) && (Holds(s.stacks[t]) ==> t == s.mutex))
    && 0 !in s.stacks
    && Owned(s)
    && (forall f <- s.finished :: Returned(f))
  }

  /** What may change when goroutine t moves: its stack, and the lock words consistently. */
  lemma {:induction false} OneMoves(s: State, u: State, t: Goroutine)
    requires Inv(s) && t != 0 && u.stacks == s.stacks[t := Stack(u, t)] && StackOk(Stack(u, t))
    requires Holds(Stack(u, t)) ==> u.mutex == t
    requires u.mutex == s.mutex || (s.mutex == 0 && u.mutex == t) || (s.mutex == t && u.mutex == 0)
    requires Owned(u)
    requires u.finished == s.finished || (exists f :: Returned(f) && u.finished == s.finished + [f])
    ensures Inv(u)
  {
    hide StackOk, Records;
    forall v <- u.stacks ensures StackOk(u.stacks[v]) && (Holds(u.stacks[v]) ==> v == u.mutex) {
      if v != t {
        assert v in s.stacks && u.stacks[v] == s.stacks[v];
      }
    }
  }

  lemma {:induction false} PushKeepsInv(s: State, t: Goroutine, op: Op)
    requires Inv(s) && t != 0 && (Stack(s, t) == [] || Top(Stack(s, t)).pc.Running?)
    ensures Inv(Push(s, t, Frame(op, Enter, false, {}, [], NotYet)))
  {
    var f := Frame(op, Enter, false, {}, [], NotYet);
    var u := Push(s, t, f);
    assert Records(f);
    hide Records;
    OneMoves(s, u, t);
  }

  /** A new top for a stack. */
  predicate FitsTop(fs: seq<Frame>, f: Frame)
    requires fs != []
  {
    && Records(f)
    && (if |fs| == 1 then f.locked <==> !f.pc.Enter? && !f.pc.WantLock?
        else !f.locked && !f.pc.WantLock? && !f.pc.StoreId? && !f.pc.Unlock?)
    && (InLoop(f) ==> |fs| <= MAX_RECURSION)
  }

  lemma {:induction false} NewTop(fs: seq<Frame>, f: Frame)
    requires fs != [] && StackOk(fs) && FitsTop(fs, f)
    ensures StackOk(fs[..|fs| - 1] + [f])
  {
    hide Records;
    var gs := fs[..|fs| - 1] + [f];
    assert forall g <- gs :: g == f || g in fs;
  }

  /** The top call of t moves on: s and v differ in shared variables only. */
  lemma {:induction false} TopMoves(s: State, v: State, t: Goroutine, f: Frame)
    requires Inv(s) && t != 0 && Stack(s, t) != [] && FitsTop(Stack(s, t), f)
    requires v.stacks == s.stacks && v.finished == s.finished
    requires v.mutex == s.mutex || (s.mutex == 0 && v.mutex == t)
    requires Holds(SetTop(v, t, f).stacks[t]) ==> v.mutex == t
    requires Owned(SetTop(v, t, f))
    ensures Inv(SetTop(v, t, f))
  {
    var fs := Stack(s, t);
    NewTop(fs, f);
    hide StackOk, Records, Owned, FitsTop;
    OneMoves(s, SetTop(v, t, f), t);
  }

  /** The call at the top of a stack of its holder, or still outside the lock. */
  lemma {:induction false} WhereTop(s: State, t: Goroutine)
    requires Inv(s) && t != 0 && Stack(s, t) != []
    ensures var fs, f := Stack(s, t), Top(Stack(s, t));
            && StackOk(fs) && Records(f)
            && (f.pc.Enter? || f.pc.WantLock? ==> |fs| > 1 || !f.locked)
            && (f.pc.WantLock? || f.pc.StoreId? || f.pc.Unlock? ==> |fs| == 1)
            && (Holds(fs) ==> s.mutex == t && s.recursion == Depth(fs))
            && (Holds(fs) <==> |fs| > 1 || (!f.pc.Enter? && !f.pc.WantLock?))
            && (!Holds(fs) ==> s.mutex != t && s.goid != t)
            && (Holds(fs) ==> s.goid == if f.pc.StoreId? || f.pc.Unlock? then 0 else t)
            && (InLoop(f) ==> |fs| <= MAX_RECURSION)
            && (f.locked <==> |fs| == 1 && Holds(fs))
  {
    var fs := Stack(s, t);
    assert StackOk(fs);
    assert Top(fs) in fs;
    hide Records;
    if |fs| > 1 {
      assert fs[0].pc.Running?;
    }
  }

  /** The top call moves on without touching the lock words. */
  lemma {:induction false} QuietMove(s: State, v: State, t: Goroutine, f: Frame)
    requires Inv(s) && t != 0 && Stack(s, t) != [] && FitsTop(Stack(s, t), f)
    requires v.stacks == s.stacks && v.finished == s.finished
    requires v.mutex == s.mutex && v.goid == s.goid && v.recursion == s.recursion
    requires var g := Top(Stack(s, t));
             && (Counted(f) <==> Counted(g))
             && (f.pc.StoreId? || f.pc.Unlock? <==> g.pc.StoreId? || g.pc.Unlock?)
             && (f.pc.Enter? || f.pc.WantLock? <==> g.pc.Enter? || g.pc.WantLock?)
    ensures Inv(SetTop(v, t, f))
  {
    WhereTop(s, t);
    hide StackOk, Records, FitsTop;
    TopMoves(s, v, t, f);
  }

  lemma {:induction false} EnterKeepsInv(s: State, t: Goroutine)
    requires Inv(s) && t != 0 && Stack(s, t) != [] && Top(Stack(s, t)).pc.Enter?
    ensures Inv(LockStep(s, t).value)
  {
    WhereTop(s, t);
    var f := Top(Stack(s, t));
    var g := f.(pc := if s.goid == t then Body else WantLock);
    assert Records(g);
    hide StackOk, Records;
    TopMoves(s, s, t, g);
  }

  lemma {:induction false} LockKeepsInv(s: State, t: Goroutine)
    requires Inv(s) && t != 0 && Stack(s, t) != [] && Top(Stack(s, t)).pc.WantLock? && s.mutex == 0
    ensures Inv(LockStep(s, t).value)
  {
    WhereTop(s, t);
    var f := Top(Stack(s, t)).(pc := StoreId, locked := true);
    assert Records(f);
    hide StackOk, Records;
    TopMoves(s, s.(mutex := t), t, f);
  }

  lemma {:induction false} StoreKeepsInv(s: State, t: Goroutine)
    requires Inv(s) && t != 0 && Stack(s, t) != [] && Top(Stack(s, t)).pc.StoreId?
    ensures Inv(LockStep(s, t).value)
  {
    WhereTop(s, t);
    var f := Top(Stack(s, t)).(pc := Body);
    assert Records(f);
    hide StackOk, Records;
    TopMoves(s, s.(goid := t), t, f);
  }

  lemma {:induction false} BodyRecords(f: Frame, recursion: int)
    requires Records(f) && f.pc.Body?
    ensures Records(BodyFrame(f, recursion))
  {
  }

  lemma {:induction false} BodyWords(s: State, op: Op)
    ensures var v := BodyShared(s, op);
            && v.stacks == s.stacks && v.finished == s.finished && v.mutex == s.mutex && v.goid == s.goid
            && v.recursion == if op.Dispatch? then s.recursion + 1 else s.recursion
  {
  }

  lemma {:induction false} BodyKeepsInv(s: State, t: Goroutine)
    requires Inv(s) && t != 0 && Stack(s, t) != [] && Top(Stack(s, t)).pc.Body?
    ensures Inv(BodyStep(s, t))
  {
    WhereTop(s, t);
    var f := Top(Stack(s, t));
    var v := BodyShared(s, f.op);
    hide StackOk, Records, Inv, BodyShared;
    BodyWords(s, f.op);
    BodyRecords(f, v.recursion);
    TopMoves(s, v, t, BodyFrame(f, v.recursion));
  }

  lemma {:induction false} PopKeepsInv(s: State, v: State, t: Goroutine)
    requires Inv(s) && t != 0 && Stack(s, t) != []
    requires var f := Top(Stack(s, t)); f.pc.Unlock? || (f.pc.Leave? && !f.locked)
    requires v == if Top(Stack(s, t)).pc.Unlock? then s.(mutex := 0) else s
    ensures Inv(Pop(v, t))
  {
    WhereTop(s, t);
    var fs := Stack(s, t);
    assert forall g <- fs[..|fs| - 1] :: g in fs;
    assert StackOk(fs[..|fs| - 1]);
    hide StackOk, Records;
    OneMoves(s, Pop(v, t), t);
  }

  lemma {:induction false} LeaveKeepsInv(s: State, t: Goroutine)
    requires Inv(s) && t != 0 && Stack(s, t) != [] && Top(Stack(s, t)).pc.Leave? && Top(Stack(s, t)).locked
    ensures Inv(LockStep(s, t).value)
  {
    WhereTop(s, t);
    var f := Top(Stack(s, t)).(pc := Unlock);
    assert Records(f);
    hide StackOk, Records;
    TopMoves(s, s.(goid := 0), t, f);
  }

  lemma {:induction false} DropKeepsInv(s: State, t: Goroutine, f: Frame)
    requires Inv(s) && t != 0 && Stack(s, t) != [] && Top(Stack(s, t)).pc.Drop?
    requires f == Top(Stack(s, t)).(pc := Leave) && Records(f)
    ensures Inv(SetTop(s.(recursion := s.recursion - 1), t, f))
  {
    WhereTop(s, t);
    hide StackOk, Records, Inv;
    TopMoves(s, s.(recursion := s.recursion - 1), t, f);
  }

  /** The records of a dispatch stay right, whatever is registered when. */
  lemma {:induction false} LoopRecords(f: Frame, c: Choice, found: set<Listener>)
    requires Records(f) && f.op.Dispatch? && LoopFrame(f, c, found).Some?
    ensures Records(LoopFrame(f, c, found).value)
  {
    var g := LoopFrame(f, c, found).value;
    if f.pc.Loop? && c.Pick? {
      PickRecords(f, c.listener);
    }
  }

  lemma {:induction false} PickRecords(f: Frame, l: Listener)
    requires Records(f) && f.pc.Loop? && l in f.pc.rest
    ensures Records(f.(pc := Running(l, f.pc.rest - {l}), called := f.called + [l]))
  {
    var g := f.(pc := Running(l, f.pc.rest - {l}), called := f.called + [l]);
    assert forall k :: k in g.called <==> k in f.called || k == l;
  }

  lemma {:induction false} LoopKeepsInv(s: State, t: Goroutine, c: Choice)
    requires Inv(s) && t != 0 && Stack(s, t) != [] && LoopStep(s, t, c).Some?
    requires !IsLockPC(Top(Stack(s, t)).pc)
    ensures Inv(LoopStep(s, t, c).value)
  {
    WhereTop(s, t);
    var f := Top(Stack(s, t));
    var found := Registered(s, f.op.event);
    hide StackOk, Records, Inv, Holds, Registered;
    DispatchOnly(f);
    LoopRecords(f, c, found);
    var g := LoopFrame(f, c, found).value;
    if f.pc.Drop? {
      DropKeepsInv(s, t, g);
    } else {
      QuietMove(s, LoopShared(s, f, c), t, g);
    }
  }

  lemma {:induction false} DispatchOnly(f: Frame)
    requires Records(f) && !IsLockPC(f.pc)
    ensures f.op.Dispatch?
  {
  }

  /** Every step keeps the invariant. */
  lemma {:induction false} StepKeepsInv(s: State, a: Action)
    requires Inv(s) && Step(s, a).Some?
    ensures Inv(Step(s, a).value)
  {
    var t := a.who;
    hide Inv, BodyStep, LoopStep;
    if a.what.Call? {
      PushKeepsInv(s, t, a.what.op);
    } else {
      var p := Top(Stack(s, t)).pc;
      if !IsLockPC(p) {
        LoopKeepsInv(s, t, a.what);
      } else {
        match p
        case Enter => EnterKeepsInv(s, t);
        case WantLock => LockKeepsInv(s, t);
        case StoreId => StoreKeepsInv(s, t);
        case Body => BodyKeepsInv(s, t);
        case Leave => if Top(Stack(s, t)).locked { LeaveKeepsInv(s, t); } else { PopKeepsInv(s, s, t); }
        case Unlock => PopKeepsInv(s, s.(mutex := 0), t);
      }
    }
  }

  /** The invariant holds in every state of every run of a fresh dispatcher. */
  lemma {:induction false} RunKeepsInv(s: State, actions: seq<Action>)
    requires Inv(s) && Run(s, actions).Some?
    ensures Inv(Run(s, actions).value)
    decreases |actions|
  {
    hide Inv, Step;
    if actions != [] {
      StepKeepsInv(s, actions[0]);
      RunKeepsInv(Step(s, actions[0]).value, actions[1..]);
    }
  }
}
