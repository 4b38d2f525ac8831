/** A run of the init functions, event by event: what happens next is decided by the log
    so far, without recursion. The recursive run produces exactly that log. */
module InitTrace {
  import opened InitRun

  /** The functions that have been entered and not returned, innermost last. */
  ghost function StackOf(log: seq<Event>): seq<Func> {
    if log == [] then []
    else
      var stack, e := StackOf(log[..|log| - 1]), log[|log| - 1];
      if e.Enter? then stack + [e.f]
      else if stack == [] then []
      else stack[..|stack| - 1]
  }

  predicate IsFailure(e: Event) {
    e.Exit? && e.rc != OK
  }

  /** The first of some functions that is registered and not called yet. */
  function FirstUncalled(regs: set<Func>, called: set<Func>, fs: seq<Func>): (r: seq<Func>)
    ensures |r| <= 1
    ensures r == [] <==> forall f :: f in fs && f in regs ==> f in called
  {
    if fs == [] then []
    else if fs[0] in regs && fs[0] !in called then [fs[0]]
    else FirstUncalled(regs, called, fs[1..])
  }

  /** What comes next in a run over `list` that began at position `base` of the log; at
      most one event. A failure is passed on to every function on the stack, and ends the
      run. Otherwise the innermost function calls the first of its dependencies that is
      registered and not called yet; when there is none it does its work and returns. With
      nothing on the stack it is the turn of the first uncalled function of the list. */
  ghost function NextEvent(g: Graph, list: seq<Func>, base: nat, log: seq<Event>): (r: seq<Event>)
    ensures |r| <= 1
  {
    var stack := StackOf(log);
    if |log| > base && IsFailure(log[|log| - 1]) then
      if stack == [] then [] else [Exit(stack[|stack| - 1], log[|log| - 1].rc)]
    else if stack == [] then
      var next := FirstUncalled(Elems(list), Entered(log), list);
      if next == [] then [] else [Enter(next[0])]
    else
      var f := stack[|stack| - 1];
      var next := FirstUncalled(Elems(list), Entered(log), g.deps(f));
      if next == [] then [Exit(f, g.work(f))] else [Enter(next[0])]
  }

  /** From `base` on, every event is the one that comes next. */
  ghost predicate Follows(g: Graph, list: seq<Func>, base: nat, log: seq<Event>) {
    |log| <= base ||
    var front, e := log[..|log| - 1], log[|log| - 1];
    Follows(g, list, base, front) && NextEvent(g, list, base, front) == [e]
  }

  lemma {:induction false} FollowsAt(g: Graph, list: seq<Func>, base: nat, log: seq<Event>, i: nat)
    requires Follows(g, list, base, log) && base <= i < |log|
    ensures Follows(g, list, base, log[..i]) && NextEvent(g, list, base, log[..i]) == [log[i]]
    decreases |log|
  {
    if i < |log| - 1 {
      var front := log[..|log| - 1];
      FollowsAt(g, list, base, front, i);
      assert front[..i] == log[..i];
    }
  }

  /** The code a log amounts to: the last failure since `base`. */
  ghost function Code(base: nat, log: seq<Event>): int {
    if |log| > base && IsFailure(log[|log| - 1]) then log[|log| - 1].rc else OK
  }

  lemma {:induction false} AppendFollows(g: Graph, list: seq<Func>, base: nat, log: seq<Event>, e: Event)
    requires Follows(g, list, base, log) && (|log| >= base ==> NextEvent(g, list, base, log) == [e])
    ensures Follows(g, list, base, log + [e])
  {
    assert (log + [e])[..|log|] == log;
  }

  lemma {:induction false} AppendStack(log: seq<Event>, e: Event)
    ensures StackOf(log + [e])
      == if e.Enter? then StackOf(log) + [e.f]
         else if StackOf(log) == [] then [] else StackOf(log)[..|StackOf(log)| - 1]
    ensures Entered(log + [e]) == Entered(log) + if e.Enter? then {e.f} else {}
  {
    assert (log + [e])[..|log|] == log;
  }

  /** Whose turn it is to call. */
  ghost function Callees(g: Graph, list: seq<Func>, stack: seq<Func>): seq<Func> {
    if stack == [] then list else g.deps(stack[|stack| - 1])
  }

  /** The log so far follows, without a failure, and the flags agree with it. */
  ghost predicate Running(g: Graph, list: seq<Func>, base: nat, s: State) {
    && base <= |s.log|
    && Follows(g, list, base, s.log)
    && Code(base, s.log) == OK
    && s.called == Entered(s.log)
  }

  /** What a call leaves: the same stack, and its code as the log's. */
  ghost predicate Ran(g: Graph, list: seq<Func>, base: nat, s: State, s': State, rc: int) {
    && base <= |s'.log|
    && Follows(g, list, base, s'.log)
    && s'.called == Entered(s'.log)
    && StackOf(s'.log) == StackOf(s.log)
    && Code(base, s'.log) == rc
  }

  lemma {:induction false} SkipCalled(regs: set<Func>, called: set<Func>, done: seq<Func>, rest: seq<Func>)
    requires forall h :: h in done && h in regs ==> h in called
    ensures FirstUncalled(regs, called, done + rest) == FirstUncalled(regs, called, rest)
    decreases |done|
  {
    if done == [] {
      assert done + rest == rest;
    } else {
      assert (done + rest)[1..] == done[1..] + rest;
      SkipCalled(regs, called, done[1..], rest);
    }
  }

  lemma {:induction false} EnterNext(
    g: Graph, list: seq<Func>, base: nat, s: State, done: seq<Func>, f: Func, rest: seq<Func>)
    requires Running(g, list, base, s) && f in Elems(list) && f !in s.called
    requires Callees(g, list, StackOf(s.log)) == done + ([f] + rest)
    requires forall h :: h in done && h in Elems(list) ==> h in s.called
    ensures var s0 := State(s.called + {f}, s.log + [Enter(f)]);
      Running(g, list, base, s0) && StackOf(s0.log) == StackOf(s.log) + [f]
  {
    SkipCalled(Elems(list), s.called, done, [f] + rest);
    AppendFollows(g, list, base, s.log, Enter(f));
    AppendStack(s.log, Enter(f));
  }

  /** A function whose calls are over, with or without a failure, returns next. */
  lemma {:induction false} ExitNext(
    g: Graph, list: seq<Func>, base: nat, s0: State, s1: State, rc: int, f: Func, below: seq<Func>)
    requires Ran(g, list, base, s0, s1, rc) && StackOf(s0.log) == below + [f]
    requires rc == OK ==> forall d :: d in g.deps(f) && d in Elems(list) ==> d in s1.called
    ensures var rc' := if rc == OK then g.work(f) else rc;
      var s' := s1.(log := s1.log + [Exit(f, rc')]);
      && base <= |s'.log| && Follows(g, list, base, s'.log) && s'.called == Entered(s'.log)
      && StackOf(s'.log) == below && Code(base, s'.log) == rc'
  {
    var rc' := if rc == OK then g.work(f) else rc;
    AppendFollows(g, list, base, s1.log, Exit(f, rc'));
    AppendStack(s1.log, Exit(f, rc'));
  }

  lemma {:induction false} BodyRan(
    g: Graph, list: seq<Func>, base: nat, s: State, done: seq<Func>, f: Func, rest: seq<Func>)
    requires Running(g, list, base, s) && f in Elems(list) && f !in s.called
    requires Callees(g, list, StackOf(s.log)) == done + ([f] + rest)
    requires forall h :: h in done && h in Elems(list) ==> h in s.called
    ensures var r := Body(g, Elems(list), s.(called := s.called + {f}), f);
      Ran(g, list, base, s, r.0, r.1)
    decreases |Elems(list) - s.called|, 0, 0
  {
    var regs := Elems(list);
    var s0 := State(s.called + {f}, s.log + [Enter(f)]);
    EnterNext(g, list, base, s, done, f, rest);
    MarkUncalled(regs, s.called, f);
    CallsRan(g, list, base, s0, [], g.deps(f));
    var (s1, rc1) := CallEach(g, regs, s0, g.deps(f));
    ExitNext(g, list, base, s0, s1, rc1, f, StackOf(s.log));
  }

  lemma {:induction false} CallsRan(
    g: Graph, list: seq<Func>, base: nat, s: State, done: seq<Func>, fs: seq<Func>)
    requires Running(g, list, base, s)
    requires Callees(g, list, StackOf(s.log)) == done + fs
    requires forall h :: h in done && h in Elems(list) ==> h in s.called
    ensures var r := CallEach(g, Elems(list), s, fs);
      && Ran(g, list, base, s, r.0, r.1)
      && (r.1 == OK ==> forall h :: h in done + fs && h in Elems(list) ==> h in r.0.called)
    decreases |Elems(list) - s.called|, 1, |fs|
  {
    if fs != [] {
      var regs, f := Elems(list), fs[0];
      assert fs == [f] + fs[1..];
      OneRan(g, list, base, s, done, f, fs[1..]);
      var (s1, rc) := CallOne(g, regs, s, f);
      ShrinkUncalled(regs, s.called, s1.called);
      if rc == OK {
        assert done + fs == (done + [f]) + fs[1..];
        CallsRan(g, list, base, s1, done + [f], fs[1..]);
      }
    }
  }

  lemma {:induction false} OneRan(
    g: Graph, list: seq<Func>, base: nat, s: State, done: seq<Func>, f: Func, rest: seq<Func>)
    requires Running(g, list, base, s)
    requires Callees(g, list, StackOf(s.log)) == done + ([f] + rest)
    requires forall h :: h in done && h in Elems(list) ==> h in s.called
    ensures var r := CallOne(g, Elems(list), s, f);
      && Ran(g, list, base, s, r.0, r.1)
      && (forall h :: h in done + [f] && h in Elems(list) ==> h in r.0.called)
    decreases |Elems(list) - s.called|, 1, 0
  {
    if f in Elems(list) && f !in s.called {
      BodyRan(g, list, base, s, done, f, rest);
    }
  }

  /** The log of a run, from any state with nothing on the stack, is produced event by
      event; it stops only where nothing comes next, and the run returns its code. */
  lemma {:induction false} RunIsTrace(g: Graph, list: seq<Func>, s: State)
    requires WellFormed(Elems(list), s) && StackOf(s.log) == []
    ensures var r := RunAll(g, list, s);
      && s.log <= r.0.log
      && Follows(g, list, |s.log|, r.0.log)
      && NextEvent(g, list, |s.log|, r.0.log) == []
      && r.1 == Code(|s.log|, r.0.log)
      && r.0.called == Entered(r.0.log)
      && StackOf(r.0.log) == []
  {
    CallsRan(g, list, |s.log|, s, [], list);
    assert [] + list == list;
    CallEachKeeps(g, Elems(list), s, list);
  }

  lemma {:induction false} TracePrefix(g: Graph, list: seq<Func>, base: nat, log: seq<Event>, all: seq<Event>)
    requires base <= |log| && base <= |all| && log[..base] == all[..base]
    requires Follows(g, list, base, log)
    requires Follows(g, list, base, all) && NextEvent(g, list, base, all) == []
    ensures log <= all
    decreases |log|
  {
    if |log| > base {
      var front := log[..|log| - 1];
      assert front[..base] == log[..base];
      TracePrefix(g, list, base, front, all);
      assert |front| >= |all| ==> front == all;
      if |front| < |all| {
        FollowsAt(g, list, base, all, |front|);
        assert log == front + [log[|log| - 1]] && all[..|front|] == front;
      }
    } else {
      assert log == log[..base];
    }
  }

  /** Any number of runs in one process: each starts with nothing on the stack. */
  lemma {:induction false} RunsAreTraces(g: Graph, list: seq<Func>, n: nat)
    ensures WellFormed(Elems(list), Runs(g, list, n).0) && StackOf(Runs(g, list, n).0.log) == []
    ensures var s, r := Runs(g, list, n).0, Runs(g, list, n + 1);
      && Follows(g, list, |s.log|, r.0.log)
      && NextEvent(g, list, |s.log|, r.0.log) == []
      && r.1 == Code(|s.log|, r.0.log)
  {
    RunsKeep(g, list, n);
    if n > 0 {
      RunsAreTraces(g, list, n - 1);
      RunIsTrace(g, list, Runs(g, list, n - 1).0);
    }
    RunIsTrace(g, list, Runs(g, list, n).0);
  }

  /** The events that come next one after another leave no choice. */
  lemma {:induction false} TraceUnique(g: Graph, list: seq<Func>, base: nat, log: seq<Event>, log': seq<Event>)
    requires base <= |log| && base <= |log'| && log[..base] == log'[..base]
    requires Follows(g, list, base, log) && NextEvent(g, list, base, log) == []
    requires Follows(g, list, base, log') && NextEvent(g, list, base, log') == []
    ensures log == log'
  {
    TracePrefix(g, list, base, log, log');
    TracePrefix(g, list, base, log', log);
  }

  lemma {:induction false} FailureLasts(g: Graph, list: seq<Func>, base: nat, log: seq<Event>, i: nat, j: nat)
    requires Follows(g, list, base, log) && base <= i <= j < |log| && IsFailure(log[i])
    ensures log[j].Exit? && log[j].rc == log[i].rc
    decreases j
  {
    if i < j {
      FailureLasts(g, list, base, log, i, j - 1);
      FollowsAt(g, list, base, log, j);
      assert log[..j][j - 1] == log[j - 1];
    }
  }

  lemma {:induction false} FailureIsCode(g: Graph, list: seq<Func>, base: nat, log: seq<Event>, i: nat)
    requires Follows(g, list, base, log) && base <= i < |log| && IsFailure(log[i])
    ensures Code(base, log) == log[i].rc
  {
    FailureLasts(g, list, base, log, i, |log| - 1);
  }

  /** After a failure there are only returns, of the functions on the stack, with its code,
      and the run returns that code: no function is entered any more. */
  lemma {:induction false} FailurePropagates(g: Graph, list: seq<Func>, s: State, i: nat, j: nat)
    requires WellFormed(Elems(list), s) && StackOf(s.log) == []
    requires var log := RunAll(g, list, s).0.log;
      |s.log| <= i <= j < |log| && IsFailure(log[i])
    ensures var r := RunAll(g, list, s);
      r.0.log[j].Exit? && r.0.log[j].rc == r.0.log[i].rc == r.1
  {
    RunIsTrace(g, list, s);
    var r := RunAll(g, list, s);
    FailureLasts(g, list, |s.log|, r.0.log, i, j);
    FailureIsCode(g, list, |s.log|, r.0.log, i);
  }

  /** And the code is what the own work of the first function that fails returns; all its
      registered dependencies had been called before. */
  lemma {:induction false} FailureIsWork(g: Graph, list: seq<Func>, s: State, i: nat)
    requires WellFormed(Elems(list), s) && StackOf(s.log) == []
    requires var log := RunAll(g, list, s).0.log;
      && |s.log| <= i < |log| && IsFailure(log[i])
      && (i > |s.log| ==> !IsFailure(log[i - 1]))
    ensures var log := RunAll(g, list, s).0.log;
      && log[i].rc == g.work(log[i].f)
      && forall d :: d in g.deps(log[i].f) && d in list ==> d in Entered(log[..i])
  {
    var log := RunAll(g, list, s).0.log;
    RunIsTrace(g, list, s);
    FollowsAt(g, list, |s.log|, log, i);
    if i > |s.log| {
      assert log[..i][i - 1] == log[i - 1];
    }
  }

  // ----- which functions a failing run has called

  /** The functions up to the first whose work fails, which is the last of them. */
  function UpToFailure(g: Graph, fs: seq<Func>): (r: seq<Func>)
    ensures fs != [] ==> r != []
  {
    if fs == [] then []
    else if g.work(fs[0]) != OK then [fs[0]]
    else [fs[0]] + UpToFailure(g, fs[1..])
  }

  predicate Independent(g: Graph, regs: set<Func>) {
    forall f, d :: f in regs && d in g.deps(f) ==> d !in regs
  }

  lemma {:induction false} NoneRegistered(g: Graph, regs: set<Func>, s: State, ds: seq<Func>)
    requires forall d :: d in ds ==> d !in regs
    ensures CallEach(g, regs, s, ds) == (s, OK)
  {
    if ds != [] {
      assert ds[0] !in regs;
      NoneRegistered(g, regs, s, ds[1..]);
    }
  }

  lemma {:induction false} FlatOne(g: Graph, regs: set<Func>, s: State, f: Func)
    requires Independent(g, regs) && f in regs
    ensures var r := CallOne(g, regs, s, f);
      && r.0.called == s.called + {f}
      && r.1 == if f in s.called then OK else g.work(f)
  {
    if f !in s.called {
      var s0 := s.(called := s.called + {f});
      NoneRegistered(g, regs, s0.(log := s0.log + [Enter(f)]), g.deps(f));
      assert CallOne(g, regs, s, f) == Body(g, regs, s0, f);
    }
  }

  lemma {:induction false} FlatCalls(g: Graph, regs: set<Func>, s: State, fs: seq<Func>)
    requires Independent(g, regs) && Elems(fs) <= regs
    requires forall f :: f in s.called ==> g.work(f) == OK
    ensures var r, called := CallEach(g, regs, s, fs), UpToFailure(g, fs);
      && r.0.called == s.called + Elems(called)
      && r.1 == if AllWork(g, Elems(fs)) then OK else g.work(called[|called| - 1])
    decreases |fs|
  {
    if fs != [] {
      var f, rest := fs[0], fs[1..];
      assert Elems(fs) == {f} + Elems(rest);
      FlatOne(g, regs, s, f);
      if g.work(f) == OK {
        var s1 := CallOne(g, regs, s, f).0;
        FlatCalls(g, regs, s1, rest);
        assert Elems([f] + UpToFailure(g, rest)) == {f} + Elems(UpToFailure(g, rest));
      } else {
        assert Elems([f]) == {f};
      }
    }
  }

  /** Functions that do not depend on each other: those up to the first that fails are
      called, and no other; its code is the run's. */
  lemma {:induction false} CalledUpToFailure(g: Graph, list: seq<Func>)
    requires Independent(g, Elems(list))
    ensures var r, called := RunAll(g, list, FRESH), UpToFailure(g, list);
      && r.0.called == Elems(called)
      && r.1 == if AllWork(g, Elems(list)) then OK else g.work(called[|called| - 1])
  {
    FlatCalls(g, Elems(list), FRESH, list);
  }
}
