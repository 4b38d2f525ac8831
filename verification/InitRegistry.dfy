/** The intrusive list of registered init functions: registration and removal rewrite
    `next` pointers and the head, runs walk it and set flags. A ghost sequence holds the
    list's nodes in order; the flags and the log are tied to an `InitRun.State`. */
module InitRegistry {
  import opened InitRun

  class Elt {
    var next: Elt?
    var func: Func
    var isCalled: bool

    constructor (f: Func)
      ensures func == f && !isCalled
    {
      next, func, isCalled := null, f, false;
    }
  }

  /** A function is not registered twice; the removal loop stops at its first node. */
  function Without(fs: seq<Func>, f: Func): (r: seq<Func>)
    ensures f !in fs ==> r == fs
    ensures |r| <= |fs|
    ensures forall h :: h in r ==> h in fs
  {
    if fs == [] then [] else if fs[0] == f then fs[1..] else [fs[0]] + Without(fs[1..], f)
  }

  ghost function DropAt<T>(s: seq<T>, k: nat): (r: seq<T>)
    requires k < |s|
    ensures |r| == |s| - 1
    ensures forall i :: 0 <= i < k ==> r[i] == s[i]
    ensures forall i :: k <= i < |r| ==> r[i] == s[i + 1]
  {
    s[..k] + s[k + 1..]
  }

  ghost predicate NoDup<T>(s: seq<T>) {
    forall i, j :: 0 <= i < j < |s| ==> s[i] != s[j]
  }

  lemma {:induction false} DropNoDup<T>(s: seq<T>, k: nat)
    requires k < |s| && NoDup(s)
    ensures NoDup(DropAt(s, k))
  {
  }

  class PluginMain {
    var head: Elt?
    ghost var elts: seq<Elt>
    ghost var list: seq<Func>
    ghost var state: State

    ghost predicate Valid()
      reads this, elts
    {
      && head == Node(0)
      && Linked()
      && Tied()
      && NoDup(list)
    }

    ghost predicate Linked()
      reads this, elts
    {
      forall i :: 0 <= i < |elts| ==> elts[i].next == Node(i + 1)
    }

    ghost predicate Tied()
      reads this, elts
    {
      && |elts| == |list|
      && forall i :: 0 <= i < |elts| ==>
          elts[i].func == list[i] && (elts[i].isCalled <==> list[i] in state.called)
    }

    ghost function Node(i: nat): Elt?
      reads this
    {
      if i < |elts| then elts[i] else null
    }

    constructor ()
      ensures Valid() && list == [] && elts == [] && state == FRESH
    {
      head := null;
      elts, list, state := [], [], FRESH;
    }

    /** The static constructor of `SC_DECLARE_FUNCTION`. */
    method Register(e: Elt, f: Func)
      requires Valid() && e !in elts && f !in list
      modifies this, e
      ensures Valid()
      ensures elts == [e] + old(elts) && list == [f] + old(list)
      ensures state == old(state).(called := old(state.called) - {f})
    {
      e.next := head;
      e.func := f;
      e.isCalled := false;
      head := e;
      elts := [e] + elts;
      list := [f] + list;
      state := state.(called := state.called - {f});
    }

    lemma {:induction false} Relinked(es: seq<Elt>, k: nat)
      requires k + 1 < |es| && elts == DropAt(es, k + 1)
      requires forall i :: 0 <= i < |es| && i != k ==>
        es[i].next == if i + 1 < |es| then es[i + 1] else null
      requires es[k].next == if k + 2 < |es| then es[k + 2] else null
      ensures Linked()
    {
      forall i | 0 <= i < |elts| ensures elts[i].next == Node(i + 1) {
        var j := if i <= k then i else i + 1;
        assert elts[i] == es[j];
        if j == k {
          assert es[k].next == if k + 2 < |es| then es[k + 2] else null;
        } else {
          assert j < |es|;
          assert es[j].next == if j + 1 < |es| then es[j + 1] else null;
        }
      }
    }

    lemma {:induction false} Retied(es: seq<Elt>, fs: seq<Func>, k: nat)
      requires k < |es| == |fs| && elts == DropAt(es, k) && list == DropAt(fs, k)
      requires forall i :: 0 <= i < |es| ==>
        es[i].func == fs[i] && (es[i].isCalled <==> fs[i] in state.called)
      ensures Tied()
    {
    }

    /** Distinct functions sit in distinct nodes. */
    lemma {:induction false} Apart(k: nat)
      requires Valid() && k < |elts|
      ensures forall i :: 0 <= i < |elts| && i != k ==> list[i] != list[k] && elts[i] != elts[k]
    {
    }

    /** Drop the node after `p`. */
    method Unlink(p: Elt, ghost k: nat)
      requires Valid() && k + 1 < |elts| && p == elts[k]
      modifies this`elts, this`list, p`next
      ensures Valid()
      ensures elts == DropAt(old(elts), k + 1)
      ensures list == DropAt(old(list), k + 1)
    {
      ghost var es, fs := elts, list;
      Apart(k);
      assert p.next == es[k + 1] && es[k + 1].next == if k + 2 < |es| then es[k + 2] else null;
      p.next := p.next.next;
      elts := DropAt(es, k + 1);
      list := DropAt(fs, k + 1);
      Relinked(es, k);
      Retied(es, fs, k + 1);
      DropNoDup(fs, k + 1);
    }

    /** The static destructor of `SC_DECLARE_FUNCTION`: it reads the head's function
        before anything else, so the list must not be empty. The order and the flags of
        the other nodes stay. */
    method Unregister(f: Func)
      requires Valid() && list != []
      modifies this`head, this`elts, this`list, elts`next
      ensures Valid()
      ensures list == Without(old(list), f)
      ensures f !in old(list) ==> elts == old(elts)
      ensures f in old(list) ==> exists k ::
        && 0 <= k < |old(elts)|
        && old(list)[k] == f
        && elts == DropAt(old(elts), k)
    {
      if head.func == f {
        head := head.next;
        elts := elts[1..];
        list := list[1..];
        return;
      }
      var p := head;
      ghost var k := 0;
      while p.next != null
        invariant k < |elts| && p == elts[k]
        invariant Valid() && unchanged(this) && unchanged(elts)
        invariant f !in list[..k + 1]
        decreases |elts| - k
      {
        if p.next.func == f {
          CutAt(list, k + 1, f);
          Unlink(p, k);
          return;
        }
        p := p.next;
        k := k + 1;
      }
      assert list == list[..k + 1];
    }

    /** `p->is_called = true`. */
    method Mark(p: Elt, ghost k: nat)
      requires Valid() && k < |elts| && p == elts[k]
      modifies this`state, p`isCalled
      ensures Valid()
      ensures state == old(state).(called := old(state.called) + {list[k]})
    {
      Apart(k);
      p.isCalled := true;
      state := state.(called := state.called + {list[k]});
    }

    /** An init function: its dependencies through the macro, then its own work. */
    method Invoke(g: Graph, f: Func) returns (rc: int)
      requires Valid() && f in state.called
      modifies this, elts
      ensures Valid() && elts == old(elts) && list == old(list)
      ensures (state, rc) == Body(g, Elems(list), old(state), f)
      decreases |Elems(list) - state.called|, 1, 1
    {
      state := state.(log := state.log + [Enter(f)]);
      rc := CallDependencies(g, g.deps(f));
      if rc == OK {
        rc := g.work(f);
      }
      state := state.(log := state.log + [Exit(f, rc)]);
    }

    method CallDependencies(g: Graph, ds: seq<Func>) returns (rc: int)
      requires Valid()
      modifies this, elts
      ensures Valid() && elts == old(elts) && list == old(list)
      ensures (state, rc) == CallEach(g, Elems(list), old(state), ds)
      decreases |Elems(list) - state.called|, 1, 0
    {
      rc := OK;
      var i := 0;
      while i < |ds|
        invariant 0 <= i <= |ds| && rc == OK
        invariant Valid() && elts == old(elts) && list == old(list)
        invariant old(state.called) <= state.called
        invariant CallEach(g, Elems(list), state, ds[i..]) == CallEach(g, Elems(list), old(state), ds)
      {
        ShrinkUncalled(Elems(list), old(state.called), state.called);
        rc := CallInitFunction(g, ds[i]);
        if rc != OK {
          return;
        }
        assert ds[i..][1..] == ds[i + 1..];
        i := i + 1;
      }
    }

    /** `sc_call_init_function`. */
    method CallInitFunction(g: Graph, f: Func) returns (rc: int)
      requires Valid()
      modifies this, elts
      ensures Valid() && elts == old(elts) && list == old(list)
      ensures (state, rc) == CallOne(g, Elems(list), old(state), f)
      decreases |Elems(list) - state.called|, 0, 0
    {
      rc := OK;
      var p := head;
      ghost var k := 0;
      while p != null
        invariant Valid() && unchanged(this) && unchanged(elts)
        invariant k <= |elts| && p == Node(k)
        invariant f in list[..k] ==> f in state.called
        decreases |elts| - k
      {
        if p.func == f && !p.isCalled {
          MarkUncalled(Elems(list), state.called, f);
          Mark(p, k);
          rc := Invoke(g, f);
          return;
        }
        p := p.next;
        k := k + 1;
      }
      assert list == list[..k];
    }

    /** `sc_call_all_init_function`. */
    method CallAllInitFunction(g: Graph) returns (rc: int)
      requires Valid()
      modifies this, elts
      ensures Valid() && elts == old(elts) && list == old(list)
      ensures (state, rc) == RunAll(g, list, old(state))
    {
      rc := OK;
      var p := head;
      ghost var k := 0;
      while p != null
        invariant Valid() && elts == old(elts) && list == old(list)
        invariant k <= |elts| && p == Node(k)
        invariant rc == OK
        invariant CallEach(g, Elems(list), state, list[k..]) == RunAll(g, list, old(state))
        decreases |elts| - k
      {
        assert list[k..][1..] == list[k + 1..];
        if !p.isCalled {
          Mark(p, k);
          rc := Invoke(g, p.func);
          if rc != OK {
            return;
          }
        }
        p := p.next;
        k := k + 1;
      }
    }
  }

  lemma {:induction false} CutAt(fs: seq<Func>, k: nat, f: Func)
    requires k < |fs| && fs[k] == f && f !in fs[..k]
    ensures Without(fs, f) == DropAt(fs, k)
  {
    if k > 0 {
      assert fs[0] == fs[..k][0];
      assert fs[1..][..k - 1] == fs[..k][1..];
      CutAt(fs[1..], k - 1, f);
    }
  }

  // ----- sequences of registrations and removals

  datatype RegOp = Add(f: Func) | Rm(f: Func)

  ghost function Live(ops: seq<RegOp>): seq<Func> {
    if ops == [] then []
    else
      var before := Live(ops[..|ops| - 1]);
      match ops[|ops| - 1]
      case Add(f) => [f] + before
      case Rm(f) => Without(before, f)
  }

  /** What the constructors and destructors need of their callers: no function is added
      while it is listed, and nothing is removed from an empty list. */
  ghost predicate Allowed(ops: seq<RegOp>) {
    ops == [] ||
    var front, op := ops[..|ops| - 1], ops[|ops| - 1];
    && Allowed(front)
    && (op.Add? ==> op.f !in Live(front))
    && (op.Rm? ==> Live(front) != [])
  }

  /** The position of the last operation on `f`; -1 when there is none. */
  ghost function LastOn(ops: seq<RegOp>, f: Func): (i: int)
    ensures -1 <= i < |ops|
    ensures i >= 0 ==> ops[i].f == f
    ensures forall j :: i < j < |ops| ==> ops[j].f != f
  {
    if ops == [] then -1
    else if ops[|ops| - 1].f == f then |ops| - 1
    else LastOn(ops[..|ops| - 1], f)
  }

  lemma {:induction false} WithoutFacts(fs: seq<Func>, f: Func)
    requires NoDup(fs)
    ensures NoDup(Without(fs, f))
    ensures forall h :: h in Without(fs, f) <==> h in fs && h != f
    ensures f in fs ==> exists k :: 0 <= k < |fs| && fs[k] == f && Without(fs, f) == DropAt(fs, k)
  {
    if f in fs {
      var k :| 0 <= k < |fs| && fs[k] == f;
      CutAt(fs, k, f);
      DropNoDup(fs, k);
      forall h | h in fs && h != f ensures h in DropAt(fs, k) {
        var i :| 0 <= i < |fs| && fs[i] == h;
        assert DropAt(fs, k)[if i < k then i else i - 1] == h;
      }
    }
  }

  lemma {:induction false} LiveNoDup(ops: seq<RegOp>)
    requires Allowed(ops)
    ensures NoDup(Live(ops))
  {
    if ops != [] {
      var front, op := ops[..|ops| - 1], ops[|ops| - 1];
      LiveNoDup(front);
      if op.Rm? {
        WithoutFacts(Live(front), op.f);
      }
    }
  }

  /** The list holds exactly the functions whose last operation is a registration. */
  lemma {:induction false} LiveIsLastRegistered(ops: seq<RegOp>, f: Func)
    requires Allowed(ops)
    ensures f in Live(ops) <==> LastOn(ops, f) >= 0 && ops[LastOn(ops, f)].Add?
  {
    if ops != [] {
      var front, op := ops[..|ops| - 1], ops[|ops| - 1];
      LiveIsLastRegistered(front, f);
      LiveNoDup(front);
      if op.Rm? {
        WithoutFacts(Live(front), op.f);
      }
    }
  }

  /** The most recently registered function comes first. */
  lemma {:induction false} LiveIsNewestFirst(ops: seq<RegOp>, i: nat, j: nat)
    requires Allowed(ops) && i < j < |Live(ops)|
    ensures LastOn(ops, Live(ops)[i]) > LastOn(ops, Live(ops)[j])
  {
    var front, op := ops[..|ops| - 1], ops[|ops| - 1];
    var before := Live(front);
    LiveNoDup(ops);
    if op.Add? {
      if i > 0 {
        LiveIsNewestFirst(front, i - 1, j - 1);
      }
    } else {
      LiveNoDup(front);
      var i', j' := RemovedIndices(before, op.f, i, j);
      LiveIsNewestFirst(front, i', j');
    }
  }

  /** The position from which a listed function is taken out. */
  lemma {:induction false} WithoutAt(fs: seq<Func>, f: Func) returns (k: nat)
    requires NoDup(fs) && f in fs
    ensures k < |fs| && fs[k] == f && Without(fs, f) == DropAt(fs, k)
  {
    k :| 0 <= k < |fs| && fs[k] == f;
    CutAt(fs, k, f);
  }

  lemma {:induction false} RemovedIndices(fs: seq<Func>, f: Func, i: nat, j: nat) returns (i': nat, j': nat)
    requires NoDup(fs) && i < j < |Without(fs, f)|
    ensures i' < j' < |fs| && fs[i'] == Without(fs, f)[i] != f && fs[j'] == Without(fs, f)[j] != f
  {
    if f in fs {
      var k := WithoutAt(fs, f);
      i', j' := if i < k then i else i + 1, if j < k then j else j + 1;
    } else {
      i', j' := i, j;
      assert fs[i] in fs && fs[j] in fs;
    }
  }

  method Apply(pm: PluginMain, op: RegOp, ghost front: seq<RegOp>)
    requires pm.Valid() && pm.list == Live(front) && Allowed(front + [op])
    modifies pm, pm.elts
    ensures pm.Valid() && pm.list == Live(front + [op])
    ensures forall e :: e in pm.elts ==> e in old(pm.elts) || fresh(e)
  {
    assert (front + [op])[..|front|] == front;
    match op {
      case Add(f) =>
        var e := new Elt(f);
        pm.Register(e, f);
      case Rm(f) =>
        pm.Unregister(f);
    }
  }

  /** The same operations on a heap list leave exactly that list. */
  method Replay(ops: seq<RegOp>) returns (pm: PluginMain)
    requires Allowed(ops)
    ensures pm.Valid() && pm.list == Live(ops)
  {
    pm := new PluginMain();
    var i := 0;
    while i < |ops|
      invariant 0 <= i <= |ops|
      invariant fresh(pm) && forall k :: 0 <= k < |pm.elts| ==> fresh(pm.elts[k])
      invariant pm.Valid() && pm.list == Live(ops[..i])
    {
      AllowedPrefix(ops, i + 1);
      assert ops[..i] + [ops[i]] == ops[..i + 1];
      ghost var before := pm.elts;
      Apply(pm, ops[i], ops[..i]);
      forall k | 0 <= k < |pm.elts| ensures fresh(pm.elts[k]) {
        assert pm.elts[k] in pm.elts;
        assert pm.elts[k] in before ==> fresh(pm.elts[k]);
      }
      i := i + 1;
    }
    assert ops[..i] == ops;
  }

  lemma {:induction false} AllowedPrefix(ops: seq<RegOp>, n: nat)
    requires Allowed(ops) && n <= |ops|
    ensures Allowed(ops[..n])
  {
    if n < |ops| {
      assert ops[..n] == ops[..|ops| - 1][..n];
      AllowedPrefix(ops[..|ops| - 1], n);
    } else {
      assert ops[..n] == ops;
    }
  }
}
