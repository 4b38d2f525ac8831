/** What a run over the registered init functions does, on values: which functions are
    marked as called, and the log of entries and returns. A function calls its
    dependencies through the re-entrant macro, so a run is a depth-first search. */
module InitRun {

  type Func = nat

  const OK := 0

  datatype Event = Enter(f: Func) | Exit(f: Func, rc: int)

  /** The init functions themselves: whom each one calls first, in order, and what its
      own work returns once these have succeeded. */
  datatype Graph = Graph(deps: Func -> seq<Func>, work: Func -> int)

  datatype State = State(called: set<Func>, log: seq<Event>)

  const FRESH := State({}, [])

  function Elems(fs: seq<Func>): set<Func> {
    set f | f in fs
  }

  /** One init function, already marked: enter, call the dependencies, work, return. */
  function Body(g: Graph, regs: set<Func>, s: State, f: Func): (r: (State, int))
    ensures s.called <= r.0.called
    decreases |regs - s.called|, 1, 0
  {
    var (s1, rc) := CallEach(g, regs, s.(log := s.log + [Enter(f)]), g.deps(f));
    var rc' := if rc == OK then g.work(f) else rc;
    (s1.(log := s1.log + [Exit(f, rc')]), rc')
  }

  /** Call each of `fs` that is registered and not yet called, up to the first error.
      On the dependency list this is a series of `sc_call_init_function`; on the whole
      registration list it is `sc_call_all_init_function`. */
  function CallEach(g: Graph, regs: set<Func>, s: State, fs: seq<Func>): (r: (State, int))
    ensures s.called <= r.0.called
    decreases |regs - s.called|, 0, |fs|
  {
    if fs == [] then (s, OK)
    else
      var (s1, rc) := CallOne(g, regs, s, fs[0]);
      ShrinkUncalled(regs, s.called, s1.called);
      if rc != OK then (s1, rc) else CallEach(g, regs, s1, fs[1..])
  }

  function CallOne(g: Graph, regs: set<Func>, s: State, f: Func): (r: (State, int))
    ensures s.called <= r.0.called
    decreases |regs - s.called|, 0, 0
  {
    if f in regs && f !in s.called then
      MarkUncalled(regs, s.called, f);
      Body(g, regs, s.(called := s.called + {f}), f)
    else (s, OK)
  }

  lemma {:induction false} ShrinkUncalled(regs: set<Func>, before: set<Func>, after: set<Func>)
    requires before <= after
    ensures |regs - after| <= |regs - before|
  {
    assert regs - before == (regs - after) + (regs * (after - before));
  }

  lemma {:induction false} MarkUncalled(regs: set<Func>, called: set<Func>, f: Func)
    requires f in regs && f !in called
    ensures |regs - (called + {f})| < |regs - called|
  {
    assert regs - called == (regs - (called + {f})) + {f};
  }

  // ----- what a log says

  ghost function Entered(log: seq<Event>): set<Func> {
    if log == [] then {}
    else
      var e := log[|log| - 1];
      Entered(log[..|log| - 1]) + if e.Enter? then {e.f} else {}
  }

  ghost function Returned(log: seq<Event>): set<Func> {
    if log == [] then {}
    else
      var e := log[|log| - 1];
      Returned(log[..|log| - 1]) + if e.Exit? then {e.f} else {}
  }

  /** Each function enters at most once, and returns at most once, after it entered. */
  ghost predicate Proper(log: seq<Event>) {
    log == [] ||
    var front, e := log[..|log| - 1], log[|log| - 1];
    && Proper(front)
    && (e.Enter? ==> e.f !in Entered(front))
    && (e.Exit? ==> e.f in Entered(front) && e.f !in Returned(front))
  }

  ghost predicate AllOk(log: seq<Event>) {
    forall i :: 0 <= i < |log| && log[i].Exit? ==> log[i].rc == OK
  }

  ghost function Registered(g: Graph, regs: set<Func>, f: Func): set<Func> {
    set d | d in g.deps(f) && d in regs
  }

  /** Whenever a function returns OK, its registered dependencies have returned. */
  ghost predicate DepsFirst(g: Graph, regs: set<Func>, log: seq<Event>) {
    log == [] ||
    var front, e := log[..|log| - 1], log[|log| - 1];
    && DepsFirst(g, regs, front)
    && (e.Exit? && e.rc == OK ==> Registered(g, regs, e.f) <= Returned(front))
  }

  lemma {:induction false} Append(log: seq<Event>, e: Event)
    ensures (log + [e])[..|log + [e]| - 1] == log && (log + [e])[|log|] == e
  {
  }

  lemma {:induction false} AppendOk(log: seq<Event>, e: Event)
    ensures AllOk(log + [e]) <==> AllOk(log) && (e.Exit? ==> e.rc == OK)
  {
    assert (log + [e])[|log|] == e;
    assert forall i :: 0 <= i < |log| ==> (log + [e])[i] == log[i];
  }

  // ----- what every call keeps

  /** A function is marked exactly when it has been entered. */
  ghost predicate WellFormed(regs: set<Func>, s: State) {
    s.called <= regs && s.called == Entered(s.log) && Proper(s.log)
  }

  /** Functions that were entered and have not returned: those on the call stack. */
  ghost function Open(s: State): set<Func> {
    s.called - Returned(s.log)
  }

  lemma {:induction false} ReturnedEntered(log: seq<Event>)
    requires Proper(log)
    ensures Returned(log) <= Entered(log)
  {
    if log != [] {
      ReturnedEntered(log[..|log| - 1]);
    }
  }

  lemma {:induction false} AppendEnter(regs: set<Func>, s: State, f: Func)
    requires WellFormed(regs, s) && f in regs && f !in s.called
    ensures var s' := State(s.called + {f}, s.log + [Enter(f)]);
      WellFormed(regs, s') && Open(s') == Open(s) + {f}
  {
    Append(s.log, Enter(f));
    ReturnedEntered(s.log);
  }

  lemma {:induction false} AppendExit(regs: set<Func>, s: State, f: Func, rc: int)
    requires WellFormed(regs, s) && f in Open(s)
    ensures var s' := s.(log := s.log + [Exit(f, rc)]);
      WellFormed(regs, s') && Open(s') == Open(s) - {f}
  {
    Append(s.log, Exit(f, rc));
  }

  /** A call keeps the log proper, leaves the stack as it found it, and reports an error
      exactly when it logged one. */
  ghost predicate Keeps(regs: set<Func>, s: State, s': State, rc: int) {
    && WellFormed(regs, s')
    && Open(s') == Open(s)
    && s.log <= s'.log
    && (rc == OK && AllOk(s.log) ==> AllOk(s'.log))
    && (rc != OK ==> !AllOk(s'.log))
  }

  lemma {:induction false} FrameKeeps(regs: set<Func>, s: State, f: Func, s1: State, rc1: int, rc: int)
    requires WellFormed(regs, s) && f in regs && f !in s.called
    requires Keeps(regs, State(s.called + {f}, s.log + [Enter(f)]), s1, rc1)
    requires rc == OK ==> rc1 == OK
    ensures Keeps(regs, s, s1.(log := s1.log + [Exit(f, rc)]), rc)
  {
    AppendEnter(regs, s, f);
    AppendExit(regs, s1, f, rc);
    AppendOk(s.log, Enter(f));
    AppendOk(s1.log, Exit(f, rc));
    assert Open(s) + {f} - {f} == Open(s);
  }

  lemma {:induction false} BodyKeeps(g: Graph, regs: set<Func>, s: State, f: Func)
    requires WellFormed(regs, s) && f in regs && f !in s.called
    ensures var r := Body(g, regs, s.(called := s.called + {f}), f);
      Keeps(regs, s, r.0, r.1)
    decreases |regs - s.called|, 0, 0
  {
    var s0 := State(s.called + {f}, s.log + [Enter(f)]);
    AppendEnter(regs, s, f);
    MarkUncalled(regs, s.called, f);
    CallEachKeeps(g, regs, s0, g.deps(f));
    var (s1, rc1) := CallEach(g, regs, s0, g.deps(f));
    FrameKeeps(regs, s, f, s1, rc1, if rc1 == OK then g.work(f) else rc1);
  }

  lemma {:induction false} CallEachKeeps(g: Graph, regs: set<Func>, s: State, fs: seq<Func>)
    requires WellFormed(regs, s)
    ensures var r := CallEach(g, regs, s, fs);
      && Keeps(regs, s, r.0, r.1)
      && (r.1 == OK ==> forall f :: f in fs && f in regs ==> f in r.0.called)
    decreases |regs - s.called|, 1, |fs|
  {
    if fs != [] {
      if fs[0] in regs && fs[0] !in s.called {
        BodyKeeps(g, regs, s, fs[0]);
      }
      var (s1, rc) := CallOne(g, regs, s, fs[0]);
      ShrinkUncalled(regs, s.called, s1.called);
      if rc == OK {
        CallEachKeeps(g, regs, s1, fs[1..]);
      }
    }
  }

  // ----- dependency order and cycles

  /** Registered functions, each a dependency of the one before it. */
  ghost predicate Chain(g: Graph, regs: set<Func>, p: seq<Func>) {
    && (forall i :: 0 <= i < |p| ==> p[i] in regs)
    && (forall i, j :: 0 <= i && j == i + 1 && j < |p| ==> p[j] in g.deps(p[i]))
  }

  ghost predicate IsCycle(g: Graph, regs: set<Func>, p: seq<Func>) {
    |p| >= 2 && Chain(g, regs, p) && p[0] == p[|p| - 1]
  }

  ghost predicate Acyclic(g: Graph, regs: set<Func>) {
    !exists p :: IsCycle(g, regs, p)
  }

  /** A dependency of the running function is not on the stack, or there is a cycle. */
  lemma {:induction false} NotOnStack(g: Graph, regs: set<Func>, stack: seq<Func>, d: Func)
    requires Acyclic(g, regs) && Chain(g, regs, stack)
    requires stack != [] && d in regs && d in g.deps(stack[|stack| - 1])
    ensures d !in Elems(stack)
  {
    if d in Elems(stack) {
      var i :| 0 <= i < |stack| && stack[i] == d;
      assert IsCycle(g, regs, stack[i..] + [d]);
    }
  }

  /** The stack is a chain of dependencies and holds exactly the open functions. */
  ghost predicate OnStack(g: Graph, regs: set<Func>, s: State, stack: seq<Func>) {
    && WellFormed(regs, s)
    && Chain(g, regs, stack)
    && Open(s) == Elems(stack)
    && DepsFirst(g, regs, s.log)
  }

  lemma {:induction false} Extend(g: Graph, regs: set<Func>, stack: seq<Func>, f: Func)
    requires Chain(g, regs, stack) && f in regs
    requires stack != [] ==> f in g.deps(stack[|stack| - 1])
    ensures Chain(g, regs, stack + [f])
  {
  }

  lemma {:induction false} Push(g: Graph, regs: set<Func>, s: State, f: Func, stack: seq<Func>)
    requires OnStack(g, regs, s, stack) && Chain(g, regs, stack + [f])
    requires f in regs && f !in s.called
    ensures OnStack(g, regs, State(s.called + {f}, s.log + [Enter(f)]), stack + [f])
  {
    AppendEnter(regs, s, f);
    Append(s.log, Enter(f));
    assert (stack + [f])[|stack|] == f;
    assert forall i :: 0 <= i < |stack| ==> (stack + [f])[i] == stack[i];
    assert Elems(stack + [f]) == Elems(stack) + {f};
  }

  lemma {:induction false} Pop(g: Graph, regs: set<Func>, s: State, f: Func, stack: seq<Func>, rc: int)
    requires Acyclic(g, regs) && OnStack(g, regs, s, stack + [f])
    requires rc == OK ==> forall d :: d in g.deps(f) && d in regs ==> d in s.called
    ensures DepsFirst(g, regs, s.log + [Exit(f, rc)])
  {
    Append(s.log, Exit(f, rc));
    if rc == OK {
      forall d | d in Registered(g, regs, f) ensures d in Returned(s.log) {
        NotOnStack(g, regs, stack + [f], d);
      }
    }
  }

  lemma {:induction false} BodyOrders(g: Graph, regs: set<Func>, s: State, f: Func, stack: seq<Func>)
    requires Acyclic(g, regs) && OnStack(g, regs, s, stack) && Chain(g, regs, stack + [f])
    requires f in regs && f !in s.called
    ensures OnStack(g, regs, Body(g, regs, s.(called := s.called + {f}), f).0, stack)
    decreases |regs - s.called|, 0, 0
  {
    var s0 := State(s.called + {f}, s.log + [Enter(f)]);
    Push(g, regs, s, f, stack);
    MarkUncalled(regs, s.called, f);
    CallEachOrders(g, regs, s0, g.deps(f), stack + [f]);
    CallEachKeeps(g, regs, s0, g.deps(f));
    var (s1, rc1) := CallEach(g, regs, s0, g.deps(f));
    Pop(g, regs, s1, f, stack, if rc1 == OK then g.work(f) else rc1);
    BodyKeeps(g, regs, s, f);
  }

  lemma {:induction false} CallEachOrders(g: Graph, regs: set<Func>, s: State, fs: seq<Func>, stack: seq<Func>)
    requires Acyclic(g, regs) && OnStack(g, regs, s, stack)
    requires stack != [] ==> forall i :: 0 <= i < |fs| ==> fs[i] in g.deps(stack[|stack| - 1])
    ensures OnStack(g, regs, CallEach(g, regs, s, fs).0, stack)
    decreases |regs - s.called|, 1, |fs|
  {
    if fs != [] {
      if fs[0] in regs && fs[0] !in s.called {
        Extend(g, regs, stack, fs[0]);
        BodyOrders(g, regs, s, fs[0], stack);
      }
      var (s1, rc) := CallOne(g, regs, s, fs[0]);
      ShrinkUncalled(regs, s.called, s1.called);
      if rc == OK {
        CallEachOrders(g, regs, s1, fs[1..], stack);
      }
    }
  }

  /** `d` returned strictly before `f` did. */
  ghost predicate ReturnsBefore(log: seq<Event>, d: Func, f: Func) {
    exists i, j :: 0 <= i < j < |log| && log[i].Exit? && log[j].Exit? && log[i].f == d && log[j].f == f
  }

  lemma {:induction false} ReturnedAt(log: seq<Event>, f: Func) returns (i: nat)
    requires f in Returned(log)
    ensures i < |log| && log[i].Exit? && log[i].f == f
  {
    if log[|log| - 1].Exit? && log[|log| - 1].f == f {
      i := |log| - 1;
    } else {
      i := ReturnedAt(log[..|log| - 1], f);
    }
  }

  /** In a log ordered by dependency, the return of a dependency has the smaller index. */
  lemma {:induction false} OrderedAt(g: Graph, regs: set<Func>, log: seq<Event>, j: nat, d: Func)
    requires DepsFirst(g, regs, log) && AllOk(log)
    requires j < |log| && log[j].Exit? && d in Registered(g, regs, log[j].f)
    ensures exists i :: 0 <= i < j && log[i].Exit? && log[i].f == d
  {
    var front := log[..|log| - 1];
    if j == |log| - 1 {
      var i := ReturnedAt(front, d);
      assert log[i] == front[i];
    } else {
      OrderedAt(g, regs, front, j, d);
    }
  }

  lemma {:induction false} OneReturn(log: seq<Event>, i: nat, j: nat)
    requires Proper(log)
    requires i < |log| && j < |log| && log[i].Exit? && log[j].Exit? && log[i].f == log[j].f
    ensures i == j
  {
    var front := log[..|log| - 1];
    if i < |front| && j < |front| {
      OneReturn(front, i, j);
    } else if i != j {
      ReturnedAny(front, if i < j then i else j);
    }
  }

  lemma {:induction false} ReturnedAny(log: seq<Event>, i: nat)
    requires i < |log| && log[i].Exit?
    ensures log[i].f in Returned(log)
  {
    if i < |log| - 1 {
      ReturnedAny(log[..|log| - 1], i);
    }
  }

  /** Along a chain of functions that returned in dependency order, each function's
      return comes no later than the first one's. */
  lemma {:induction false} ChainDescends(g: Graph, regs: set<Func>, log: seq<Event>, p: seq<Func>, j: nat)
    returns (i: nat)
    requires Proper(log)
    requires forall f, d :: f in regs && d in Registered(g, regs, f) ==> ReturnsBefore(log, d, f)
    requires |p| >= 1 && Chain(g, regs, p)
    requires j < |log| && log[j].Exit? && log[j].f == p[0]
    ensures i <= j - (|p| - 1) && log[i].Exit? && log[i].f == p[|p| - 1]
  {
    if |p| == 1 {
      i := j;
    } else {
      assert p[1] in Registered(g, regs, p[0]);
      assert ReturnsBefore(log, p[1], p[0]);
      var k, j' :| 0 <= k < j' < |log| && log[k].Exit? && log[j'].Exit? && log[k].f == p[1] && log[j'].f == p[0];
      OneReturn(log, j, j');
      i := ChainDescends(g, regs, log, p[1..], k);
    }
  }

  // ----- whole runs

  /** `sc_call_all_init_function` on a registration list. */
  function RunAll(g: Graph, list: seq<Func>, s: State): (State, int) {
    CallEach(g, Elems(list), s, list)
  }

  /** The state after `n` runs in one process, and the code of the last of them. */
  function Runs(g: Graph, list: seq<Func>, n: nat): (State, int) {
    if n == 0 then (FRESH, OK) else RunAll(g, list, Runs(g, list, n - 1).0)
  }

  /** Entered once and returned OK once. */
  ghost predicate CompletedOnce(log: seq<Event>, f: Func) {
    && multiset(log)[Enter(f)] == 1
    && multiset(log)[Exit(f, OK)] == 1
    && forall rc :: rc != OK ==> Exit(f, rc) !in log
  }

  lemma {:induction false} Counts(log: seq<Event>, f: Func)
    requires Proper(log)
    ensures multiset(log)[Enter(f)] == if f in Entered(log) then 1 else 0
    ensures AllOk(log) ==> multiset(log)[Exit(f, OK)] == if f in Returned(log) then 1 else 0
  {
    if log != [] {
      var front := log[..|log| - 1];
      assert log == front + [log[|log| - 1]];
      Counts(front, f);
      AppendOk(front, log[|log| - 1]);
    }
  }

  lemma {:induction false} RunsKeep(g: Graph, list: seq<Func>, n: nat)
    ensures WellFormed(Elems(list), Runs(g, list, n).0)
    ensures Open(Runs(g, list, n).0) == {}
  {
    if n > 0 {
      RunsKeep(g, list, n - 1);
      CallEachKeeps(g, Elems(list), Runs(g, list, n - 1).0, list);
    }
  }

  /** Over any number of runs, on any dependency graph, cyclic ones included, no function
      is entered twice, and every function that was entered has returned. */
  lemma {:induction false} EnteredAtMostOnce(g: Graph, list: seq<Func>, n: nat, f: Func)
    ensures multiset(Runs(g, list, n).0.log)[Enter(f)] <= 1
    ensures f in Runs(g, list, n).0.called ==> exists rc :: Exit(f, rc) in Runs(g, list, n).0.log
  {
    var s := Runs(g, list, n).0;
    RunsKeep(g, list, n);
    Counts(s.log, f);
    if f in s.called {
      assert f !in Open(s);
      var i := ReturnedAt(s.log, f);
      assert Exit(f, s.log[i].rc) in s.log;
    }
  }

  lemma {:induction false} AllCalledIsNoOp(g: Graph, regs: set<Func>, s: State, fs: seq<Func>)
    requires forall f :: f in fs ==> f in s.called
    ensures CallEach(g, regs, s, fs) == (s, OK)
  {
    if fs != [] {
      assert fs[0] in s.called;
      AllCalledIsNoOp(g, regs, s, fs[1..]);
    }
  }

  /** After a run that returned OK, another run calls nothing and returns OK. */
  lemma {:induction false} SuccessIsFinal(g: Graph, list: seq<Func>, n: nat)
    requires n > 0 && Runs(g, list, n).1 == OK
    ensures RunAll(g, list, Runs(g, list, n).0) == (Runs(g, list, n).0, OK)
  {
    RunsKeep(g, list, n - 1);
    CallEachKeeps(g, Elems(list), Runs(g, list, n - 1).0, list);
    AllCalledIsNoOp(g, Elems(list), Runs(g, list, n).0, list);
  }

  /** The log after the first run is AllOk exactly when that run returned OK. */
  lemma {:induction false} FirstRun(g: Graph, list: seq<Func>)
    ensures AllOk(Runs(g, list, 1).0.log) <==> Runs(g, list, 1).1 == OK
    ensures Runs(g, list, 1).1 == OK ==> forall f :: f in list ==> f in Runs(g, list, 1).0.called
  {
    assert Runs(g, list, 1) == RunAll(g, list, FRESH);
    CallEachKeeps(g, Elems(list), FRESH, list);
  }

  lemma {:induction false} LogGrows(g: Graph, list: seq<Func>, n: nat)
    requires n > 0
    ensures Runs(g, list, 1).0.log <= Runs(g, list, n).0.log
    ensures Runs(g, list, 1).1 == OK ==> Runs(g, list, n) == Runs(g, list, 1)
  {
    if n > 1 {
      LogGrows(g, list, n - 1);
      RunsKeep(g, list, n - 1);
      CallEachKeeps(g, Elems(list), Runs(g, list, n - 1).0, list);
      if Runs(g, list, 1).1 == OK {
        SuccessIsFinal(g, list, n - 1);
      }
    }
  }

  // ----- what decides a run

  /** The own work of every function succeeds. */
  predicate AllWork(g: Graph, regs: set<Func>) {
    forall f :: f in regs ==> g.work(f) == OK
  }

  /** Then nothing stops a call. */
  lemma {:induction false} QuietBody(g: Graph, regs: set<Func>, s: State, f: Func)
    requires AllWork(g, regs) && f in regs
    ensures Body(g, regs, s, f).1 == OK
    decreases |regs - s.called|, 1, 0
  {
    QuietCalls(g, regs, s.(log := s.log + [Enter(f)]), g.deps(f));
  }

  lemma {:induction false} QuietCalls(g: Graph, regs: set<Func>, s: State, fs: seq<Func>)
    requires AllWork(g, regs)
    ensures CallEach(g, regs, s, fs).1 == OK
    decreases |regs - s.called|, 0, |fs|
  {
    if fs != [] {
      if fs[0] in regs && fs[0] !in s.called {
        MarkUncalled(regs, s.called, fs[0]);
        QuietBody(g, regs, s.(called := s.called + {fs[0]}), fs[0]);
      }
      var s1 := CallOne(g, regs, s, fs[0]).0;
      ShrinkUncalled(regs, s.called, s1.called);
      QuietCalls(g, regs, s1, fs[1..]);
    }
  }

  /** Whatever returned OK did its work. */
  ghost predicate Honest(g: Graph, log: seq<Event>) {
    forall i :: 0 <= i < |log| && log[i].Exit? && log[i].rc == OK ==> g.work(log[i].f) == OK
  }

  lemma {:induction false} AppendHonest(g: Graph, log: seq<Event>, e: Event)
    requires Honest(g, log) && (e.Exit? && e.rc == OK ==> g.work(e.f) == OK)
    ensures Honest(g, log + [e])
  {
  }

  lemma {:induction false} BodyHonest(g: Graph, regs: set<Func>, s: State, f: Func)
    requires Honest(g, s.log)
    ensures Honest(g, Body(g, regs, s, f).0.log)
    decreases |regs - s.called|, 1, 0
  {
    var s0 := s.(log := s.log + [Enter(f)]);
    AppendHonest(g, s.log, Enter(f));
    CallsHonest(g, regs, s0, g.deps(f));
    var (s1, rc) := CallEach(g, regs, s0, g.deps(f));
    AppendHonest(g, s1.log, Exit(f, if rc == OK then g.work(f) else rc));
  }

  lemma {:induction false} CallsHonest(g: Graph, regs: set<Func>, s: State, fs: seq<Func>)
    requires Honest(g, s.log)
    ensures Honest(g, CallEach(g, regs, s, fs).0.log)
    decreases |regs - s.called|, 0, |fs|
  {
    if fs != [] {
      if fs[0] in regs && fs[0] !in s.called {
        MarkUncalled(regs, s.called, fs[0]);
        BodyHonest(g, regs, s.(called := s.called + {fs[0]}), fs[0]);
      }
      var s1 := CallOne(g, regs, s, fs[0]).0;
      ShrinkUncalled(regs, s.called, s1.called);
      CallsHonest(g, regs, s1, fs[1..]);
    }
  }

  /** A run from fresh flags returns OK if and only if the work of every registered
      function succeeds, whatever calls whatever, in a cycle or not. */
  lemma {:induction false} RunOkIffAllWork(g: Graph, list: seq<Func>)
    ensures RunAll(g, list, FRESH).1 == OK <==> AllWork(g, Elems(list))
  {
    var regs := Elems(list);
    if AllWork(g, regs) {
      QuietCalls(g, regs, FRESH, list);
    } else if RunAll(g, list, FRESH).1 == OK {
      var f :| f in list && g.work(f) != OK;
      var log := RunAll(g, list, FRESH).0.log;
      CallEachKeeps(g, regs, FRESH, list);
      CallsHonest(g, regs, FRESH, list);
      assert f !in Open(RunAll(g, list, FRESH).0);
      var i := ReturnedAt(log, f);
    }
  }

  /** A failed initialisation cannot be repaired by running again: after any number of
      runs, everything registered has completed, once each, if and only if the work of
      every registered function succeeds, which is when the very first run returns OK.
      Later runs skip what failed and may well return OK. */
  lemma {:induction false} CompletedIffAllWork(g: Graph, list: seq<Func>, n: nat)
    requires n > 0
    ensures (forall f :: f in list ==> CompletedOnce(Runs(g, list, n).0.log, f)) <==> AllWork(g, Elems(list))
    ensures Runs(g, list, 1).1 == OK <==> AllWork(g, Elems(list))
  {
    assert Runs(g, list, 1) == RunAll(g, list, Runs(g, list, 0).0);
    RunOkIffAllWork(g, list);
    CompletedIffFirstRunOk(g, list, n);
  }

  lemma {:induction false} CompletedIffFirstRunOk(g: Graph, list: seq<Func>, n: nat)
    requires n > 0
    ensures (forall f :: f in list ==> CompletedOnce(Runs(g, list, n).0.log, f))
      <==> Runs(g, list, 1).1 == OK
  {
    var s := Runs(g, list, n).0;
    FirstRun(g, list);
    LogGrows(g, list, n);
    RunsKeep(g, list, n);
    if Runs(g, list, 1).1 == OK {
      forall f | f in list ensures CompletedOnce(s.log, f) {
        Counts(s.log, f);
        assert f !in Open(s);
      }
    } else {
      var log1 := Runs(g, list, 1).0.log;
      var i :| 0 <= i < |log1| && log1[i].Exit? && log1[i].rc != OK;
      var f := log1[i].f;
      assert s.log[i] == Exit(f, log1[i].rc);
      ReturnedAny(s.log, i);
      ReturnedEntered(s.log);
      assert f in list;
      assert !CompletedOnce(s.log, f);
    }
  }

  /** When the work of every registered function succeeds, dependencies complete before
      their dependents exactly when the registered dependency graph has no cycle. */
  lemma {:induction false} OrderedIffAcyclic(g: Graph, list: seq<Func>)
    requires AllWork(g, Elems(list))
    ensures var regs, log := Elems(list), RunAll(g, list, FRESH).0.log;
      (forall f, d :: f in regs && d in Registered(g, regs, f) ==> ReturnsBefore(log, d, f))
      <==> Acyclic(g, regs)
  {
    var regs, s := Elems(list), RunAll(g, list, FRESH).0;
    RunOkIffAllWork(g, list);
    CallEachKeeps(g, regs, FRESH, list);
    if Acyclic(g, regs) {
      CallEachOrders(g, regs, FRESH, list, []);
      forall f, d | f in regs && d in Registered(g, regs, f) ensures ReturnsBefore(s.log, d, f) {
        assert f !in Open(s);
        var j := ReturnedAt(s.log, f);
        OrderedAt(g, regs, s.log, j, d);
      }
    } else if forall f, d :: f in regs && d in Registered(g, regs, f) ==> ReturnsBefore(s.log, d, f) {
      var p :| IsCycle(g, regs, p);
      assert p[0] !in Open(s);
      var j := ReturnedAt(s.log, p[0]);
      var i := ChainDescends(g, regs, s.log, p, j);
      OneReturn(s.log, i, j);
    }
  }

  // ----- exit functions

  /** Exit functions return nothing; the exit list behaves as an init list on which all
      work succeeds. `sc_call_all_exit_function` from fresh flags runs each of them once. */
  lemma {:induction false} ExitRunCompletes(g: Graph, list: seq<Func>, f: Func)
    requires AllWork(g, Elems(list)) && f in list
    ensures CompletedOnce(RunAll(g, list, FRESH).0.log, f)
  {
    assert Runs(g, list, 1) == RunAll(g, list, Runs(g, list, 0).0);
    CompletedIffAllWork(g, list, 1);
  }
}
