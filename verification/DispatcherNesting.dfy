/** Handlers that dispatch their own event type: how often a listener made for one invocation can run. */
module DispatcherNesting {
  import opened Bytes
  import opened Dispatcher
  import opened DispatcherCounts

  const ME: Goroutine := 1

  /** One goroutine with the stack fs + [f]; l is registered for e with count 1. */
  function At(e: string, l: Listener, lock: (nat, nat), fs: seq<Frame>, f: Frame, log: seq<Note>, level: int): State {
    State(lock.0, lock.1, level, map[e := {l}], map[l := 1], map[ME := fs + [f]], [], log)
  }

  /** A handler at nesting level n, counted from 0. */
  function Handler(e: string, l: Listener, n: nat): Frame {
    Frame(Dispatch(e), Running(l, {}), n == 0, {l}, [l], NotYet)
  }

  function Handlers(e: string, l: Listener, n: nat): seq<Frame> {
    seq(n, i requires 0 <= i < n => Handler(e, l, i))
  }

  function History(e: string, l: Listener, n: nat): seq<Note>
    decreases n
  {
    if n == 0 then [] else History(e, l, n - 1) + [Took(e, {l})] + [Ran(l)]
  }

  function Start(e: string, l: Listener): State {
    State(0, 0, 0, map[e := {l}], map[l := 1], map[], [], [])
  }

  /** n + 1 handlers of l run, one inside the other. */
  function Nested(e: string, l: Listener, n: nat): State {
    At(e, l, (ME, ME), Handlers(e, l, n), Handler(e, l, n), History(e, l, n + 1), n + 1)
  }

  predicate Calm(actions: seq<Action>, e: string) {
    forall a <- actions :: a.what != Panic && a.what != Stop && (a.what.Call? ==> a.what.op == Dispatch(e))
  }

  lemma {:induction false} CalmRun(s: State, actions: seq<Action>, e: string, l: Listener)
    requires Calm(actions, e)
    ensures UndisturbedRun(s, actions, e, l)
    decreases |actions|
  {
    hide Step;
    if actions != [] && Step(s, actions[0]).Some? {
      CalmRun(Step(s, actions[0]).value, actions[1..], e, l);
    }
  }

  predicate Leads(s: State, actions: seq<Action>, u: State, e: string) {
    Run(s, actions) == Some(u) && Calm(actions, e)
  }

  lemma {:induction false} RunLast(s: State, actions: seq<Action>, a: Action)
    requires Run(s, actions).Some?
    ensures Run(s, actions + [a]) == Step(Run(s, actions).value, a)
    decreases |actions|
  {
    hide Step;
    if actions == [] {
      assert [a][1..] == [];
    } else {
      assert (actions + [a])[1..] == actions[1..] + [a];
      RunLast(Step(s, actions[0]).value, actions[1..], a);
    }
  }

  /** One more step. */
  lemma {:induction false} Onward(s: State, actions: seq<Action>, u: State, c: Choice, v: State, e: string)
    returns (longer: seq<Action>)
    requires Leads(s, actions, u, e) && Step(u, Action(ME, c)) == Some(v)
    requires c.Proceed? || c.Pick? || c == Call(Dispatch(e))
    ensures Leads(s, longer, v, e)
  {
    hide Step, Run;
    longer := actions + [Action(ME, c)];
    RunLast(s, actions, Action(ME, c));
  }

  lemma {:induction false} TopAt(e: string, l: Listener, lock: (nat, nat), fs: seq<Frame>, f: Frame, g: Frame,
      log: seq<Note>, level: int)
    ensures var s := At(e, l, lock, fs, f, log, level);
            && Stack(s, ME) != [] && Top(Stack(s, ME)) == f && Stack(s, ME) == fs + [f]
            && SetTop(s, ME, g) == At(e, l, lock, fs, g, log, level)
  {
    assert (fs + [f])[..|fs|] == fs;
    assert map[ME := fs + [f]][ME := fs + [g]] == map[ME := fs + [g]];
  }

  /** A handler starts a dispatch. */
  lemma {:induction false} CallAt(e: string, l: Listener, fs: seq<Frame>, f: Frame, log: seq<Note>, level: int)
    requires f.pc.Running?
    ensures Step(At(e, l, (ME, ME), fs, f, log, level), Action(ME, Call(Dispatch(e))))
            == Some(At(e, l, (ME, ME), fs + [f], Frame(Dispatch(e), Enter, false, {}, [], NotYet), log, level))
  {
    var g := Frame(Dispatch(e), Enter, false, {}, [], NotYet);
    TopAt(e, l, (ME, ME), fs, f, g, log, level);
    assert map[ME := fs + [f]][ME := fs + [f] + [g]] == map[ME := fs + [f] + [g]];
  }

  /** One step of the lock or of the body. */
  lemma {:induction false} LockMove(e: string, l: Listener, lock: (nat, nat), fs: seq<Frame>, p: PC, locked: bool,
      log: seq<Note>, level: int)
    requires match p
             case Enter => lock.1 == ME || lock.1 == 0
             case WantLock => lock == (0, 0)
             case StoreId => lock == (ME, 0)
             case Body => lock == (ME, ME)
             case _ => false
    requires level < MAX_RECURSION
    ensures var f := Frame(Dispatch(e), p, locked, {}, [], NotYet);
            Step(At(e, l, lock, fs, f, log, level), Action(ME, Proceed))
            == Some(match p
                    case Enter => At(e, l, lock, fs, f.(pc := if lock.1 == ME then Body else WantLock), log, level)
                    case WantLock => At(e, l, (ME, 0), fs, f.(pc := StoreId, locked := true), log, level)
                    case StoreId => At(e, l, (ME, ME), fs, f.(pc := Body), log, level)
                    case _ => At(e, l, lock, fs, f.(pc := Snapshot), log, level + 1))
  {
    var f := Frame(Dispatch(e), p, locked, {}, [], NotYet);
    TopAt(e, l, lock, fs, f, f, log, level);
    hide SetTop;
    match p
    case Enter => TopAt(e, l, lock, fs, f, f.(pc := if lock.1 == ME then Body else WantLock), log, level);
    case WantLock => TopAt(e, l, (ME, 0), fs, f, f.(pc := StoreId, locked := true), log, level);
    case StoreId => TopAt(e, l, (ME, ME), fs, f, f.(pc := Body), log, level);
    case _ => TopAt(e, l, lock, fs, f, f.(pc := Snapshot), log, level + 1);
  }

  lemma {:induction false} SnapshotMove(e: string, l: Listener, fs: seq<Frame>, locked: bool, log: seq<Note>,
      level: int)
    ensures var f := Frame(Dispatch(e), Snapshot, locked, {}, [], NotYet);
            var g := Frame(Dispatch(e), Loop({l}), locked, {l}, [], NotYet);
            Step(At(e, l, (ME, ME), fs, f, log, level), Action(ME, Proceed))
            == Some(At(e, l, (ME, ME), fs, g, log + [Took(e, {l})], level))
  {
    var f := Frame(Dispatch(e), Snapshot, locked, {}, [], NotYet);
    var g := Frame(Dispatch(e), Loop({l}), locked, {l}, [], NotYet);
    TopAt(e, l, (ME, ME), fs, f, f, log, level);
    TopAt(e, l, (ME, ME), fs, f, g, log + [Took(e, {l})], level);
    hide SetTop;
  }

  lemma {:induction false} PickMove(e: string, l: Listener, fs: seq<Frame>, locked: bool, log: seq<Note>, level: int)
    ensures var f := Frame(Dispatch(e), Loop({l}), locked, {l}, [], NotYet);
            var g := Frame(Dispatch(e), Running(l, {}), locked, {l}, [l], NotYet);
            Step(At(e, l, (ME, ME), fs, f, log, level), Action(ME, Pick(l)))
            == Some(At(e, l, (ME, ME), fs, g, log + [Ran(l)], level))
  {
    var f := Frame(Dispatch(e), Loop({l}), locked, {l}, [], NotYet);
    var g := Frame(Dispatch(e), Running(l, {}), locked, {l}, [l], NotYet);
    assert {l} - {l} == {} && [] + [l] == [l];
    TopAt(e, l, (ME, ME), fs, f, f, log, level);
    TopAt(e, l, (ME, ME), fs, f, g, log + [Ran(l)], level);
    hide SetTop;
  }

  /** From the body of a dispatch into the handler it calls. */
  lemma {:induction false} IntoHandler(s: State, actions: seq<Action>, e: string, l: Listener, fs: seq<Frame>,
      log: seq<Note>, level: int) returns (longer: seq<Action>)
    requires level < MAX_RECURSION
    requires var f := Frame(Dispatch(e), Body, |fs| == 0, {}, [], NotYet);
             Leads(s, actions, At(e, l, (ME, ME), fs, f, log, level), e)
    ensures var g, notes := Handler(e, l, |fs|), [Took(e, {l})] + [Ran(l)];
            Leads(s, longer, At(e, l, (ME, ME), fs, g, log + notes, level + 1), e)
  {
    hide Step, Run, Leads, At;
    var f := Frame(Dispatch(e), Snapshot, |fs| == 0, {}, [], NotYet);
    LockMove(e, l, (ME, ME), fs, Body, |fs| == 0, log, level);
    SnapshotMove(e, l, fs, |fs| == 0, log, level + 1);
    PickMove(e, l, fs, |fs| == 0, log + [Took(e, {l})], level + 1);
    var here := At(e, l, (ME, ME), fs, f.(pc := Body), log, level);
    var snap := At(e, l, (ME, ME), fs, f, log, level + 1);
    var loop := At(e, l, (ME, ME), fs, f.(pc := Loop({l}), registered := {l}), log + [Took(e, {l})], level + 1);
    longer := Onward(s, actions, here, Proceed, snap, e);
    longer := Onward(s, longer, snap, Proceed, loop, e);
    Assoc(log, [Took(e, {l})], [Ran(l)]);
    longer := Onward(s, longer, loop, Pick(l),
                     At(e, l, (ME, ME), fs, Handler(e, l, |fs|), log + [Took(e, {l})] + [Ran(l)], level + 1), e);
  }

  lemma {:induction false} NestedAt(e: string, l: Listener, n: nat)
    ensures var fs, log := Handlers(e, l, n), History(e, l, n);
            && |fs| == n && (n == 0 ==> fs == [] && log == [])
            && Nested(e, l, n) == At(e, l, (ME, ME), fs, Handler(e, l, n), log + ([Took(e, {l})] + [Ran(l)]), n + 1)
  {
    Assoc(History(e, l, n), [Took(e, {l})], [Ran(l)]);
  }

  lemma {:induction false} FirstCall(e: string, l: Listener)
    ensures Leads(Start(e, l), [Action(ME, Call(Dispatch(e)))],
                  At(e, l, (0, 0), [], Frame(Dispatch(e), Enter, false, {}, [], NotYet), [], 0), e)
  {
    var a := Action(ME, Call(Dispatch(e)));
    assert [a][1..] == [];
    var f := Frame(Dispatch(e), Enter, false, {}, [], NotYet);
    assert [] + [f] == [f];
  }

  lemma {:induction false} Opening(e: string, l: Listener) returns (actions: seq<Action>)
    ensures Leads(Start(e, l), actions, Nested(e, l, 0), e)
  {
    hide Step, Run, Leads, At, Calm, Start, Nested, Handler;
    var s, f := Start(e, l), Frame(Dispatch(e), Enter, false, {}, [], NotYet);
    FirstCall(e, l);
    LockMove(e, l, (0, 0), [], Enter, false, [], 0);
    LockMove(e, l, (0, 0), [], WantLock, false, [], 0);
    LockMove(e, l, (ME, 0), [], StoreId, true, [], 0);
    var g := f.(locked := true);
    actions := [Action(ME, Call(Dispatch(e)))];
    actions := Onward(s, actions, At(e, l, (0, 0), [], f, [], 0), Proceed,
                      At(e, l, (0, 0), [], f.(pc := WantLock), [], 0), e);
    actions := Onward(s, actions, At(e, l, (0, 0), [], f.(pc := WantLock), [], 0), Proceed,
                      At(e, l, (ME, 0), [], g.(pc := StoreId), [], 0), e);
    actions := Onward(s, actions, At(e, l, (ME, 0), [], g.(pc := StoreId), [], 0), Proceed,
                      At(e, l, (ME, ME), [], g.(pc := Body), [], 0), e);
    actions := IntoHandler(s, actions, e, l, [], [], 0);
    NestedAt(e, l, 0);
  }

  lemma {:induction false} Deeper(s: State, actions: seq<Action>, e: string, l: Listener, n: nat)
    returns (longer: seq<Action>)
    requires 0 < n < MAX_RECURSION && Leads(s, actions, Nested(e, l, n - 1), e)
    ensures Leads(s, longer, Nested(e, l, n), e)
  {
    var fs, log := Handlers(e, l, n), History(e, l, n);
    var f := Frame(Dispatch(e), Enter, false, {}, [], NotYet);
    assert fs == Handlers(e, l, n - 1) + [Handler(e, l, n - 1)];
    CallAt(e, l, Handlers(e, l, n - 1), Handler(e, l, n - 1), log, n);
    LockMove(e, l, (ME, ME), fs, Enter, false, log, n);
    hide Step, Run, Leads, At, Nested;
    longer := Onward(s, actions, Nested(e, l, n - 1), Call(Dispatch(e)), At(e, l, (ME, ME), fs, f, log, n), e);
    longer := Onward(s, longer, At(e, l, (ME, ME), fs, f, log, n), Proceed,
                     At(e, l, (ME, ME), fs, f.(pc := Body), log, n), e);
    longer := IntoHandler(s, longer, e, l, fs, log, n);
    NestedAt(e, l, n);
  }

  lemma {:induction false} Nesting(e: string, l: Listener, n: nat) returns (actions: seq<Action>)
    requires n < MAX_RECURSION
    ensures Leads(Start(e, l), actions, Nested(e, l, n), e)
    decreases n
  {
    if n == 0 {
      actions := Opening(e, l);
    } else {
      actions := Nesting(e, l, n - 1);
      actions := Deeper(Start(e, l), actions, e, l, n);
    }
  }

  lemma {:induction false} HistoryCounts(e: string, l: Listener, n: nat)
    ensures var h := History(e, l, n);
            Invocations(h, l) == n && Dispatches(h, e) == n && Findings(h, e, l) == n
    decreases n
  {
    if n > 0 {
      HistoryCounts(e, l, n - 1);
      var h, took := History(e, l, n - 1), Took(e, {l});
      assert (h + [took] + [Ran(l)])[..|h| + 1] == h + [took] && (h + [took])[..|h|] == h;
    }
  }

  /** The bound on invocations is reached: a listener made for one invocation, whose handler dispatches
      its own event type again, runs n times for every n up to 8. */
  lemma {:induction false} InvokedAgain(e: string, l: Listener, n: nat) returns (s: State, actions: seq<Action>)
    requires 0 < n <= 8
    ensures Idle(s, e, l, 1) && Run(s, actions).Some? && UndisturbedRun(s, actions, e, l)
    ensures var u := Run(s, actions).value;
            Invocations(u.log, l) - Invocations(s.log, l) == n == Dispatches(u.log, e) - Dispatches(s.log, e)
    ensures OvercommitsIn(s, actions, e, l) <==> n > 1
  {
    hide Inv, OnlyFor, StackQuiet, UndisturbedRun, Run, Dispatches, Findings, Invocations, Idle, Owing, Invoking,
      OvercommitsIn, Calm, CountInv, TallyOf, Since, NotBefore, Start, Nested;
    s := Start(e, l);
    actions := Nesting(e, l, n - 1);
    CalmRun(s, actions, e, l);
    StartIdle(e, l);
    StartCounts(s, e, l, 1);
    RunKeepsCount(s, actions, e, l, 1, TallyOf(s, e, l));
    NestedTally(e, l, n - 1);
  }

  lemma {:induction false} NestedTally(e: string, l: Listener, n: nat)
    ensures var t, u := Start(e, l), Nested(e, l, n);
            var start, tally := TallyOf(t, e, l), TallyOf(u, e, l);
            && NotBefore(start, start) && Since(start, start).found == 0
            && NotBefore(tally, start) && Since(tally, start).found == n + 1
            && Invocations(u.log, l) - Invocations(t.log, l) == n + 1
            && Dispatches(u.log, e) - Dispatches(t.log, e) == n + 1
  {
    HistoryCounts(e, l, n + 1);
  }

  lemma {:induction false} StartIdle(e: string, l: Listener)
    ensures Idle(Start(e, l), e, l, 1)
  {
  }
}
