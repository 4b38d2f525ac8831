/** What a series of address calls does to the store as a whole, with no assumption on
    what keeps the interfaces alive while it runs. */
module AddressEffects {
  import opened Text
  import opened SysUtil
  import opened Sysrepo
  import opened ObjectStore
  import opened AddressChanges

  // ----- bindings as sets

  predicate Parses(c: Codec, call: Call) {
    c.parse(call.ip).Some?
  }

  /** A call that does anything: the interface exists and the address parses. */
  predicate Effective(c: Codec, db: Db, call: Call) {
    Finds(db, call.itf) && Parses(c, call)
  }

  function BindingOf(c: Codec, call: Call): (o: Obj)
    requires Parses(c, call)
    ensures o.L3?
  {
    L3(call.itf, RoutePrefix(c.parse(call.ip).value, call.len))
  }

  /** The bindings that a set of calls adds (or removes). */
  function Bindings(c: Codec, db: Db, calls: set<Call>, add: bool): set<Obj> {
    set call | call in calls && call.add == add && Effective(c, db, call) :: BindingOf(c, call)
  }

  function KeyOf(c: Codec, o: Obj): string
    requires o.L3?
  {
    L3Key(c, o.itf, o.pfx)
  }

  function CallKey(c: Codec, call: Call): string
    requires Parses(c, call)
  {
    KeyOf(c, BindingOf(c, call))
  }

  function Keys(c: Codec, objs: set<Obj>): set<string> {
    set o | o in objs && o.L3? :: KeyOf(c, o)
  }

  function AtKey(c: Codec, objs: set<Obj>, k: string): set<Obj> {
    set o | o in objs && o.L3? && KeyOf(c, o) == k
  }

  /** The store with some bindings added, each under its own key. */
  function Plus(c: Codec, db: Db, objs: set<Obj>): Db {
    map k | k in db.Keys + Keys(c, objs) :: Get(db, k) + AtKey(c, objs, k)
  }

  function Minus(c: Codec, db: Db, objs: set<Obj>): Db {
    db - Keys(c, objs)
  }

  lemma {:induction false} KeyApart(c: Codec, o: Obj, objs: set<Obj>)
    requires Sound(c) && o.L3? && o !in objs
    ensures KeyOf(c, o) !in Keys(c, objs)
  {
    if KeyOf(c, o) in Keys(c, objs) {
      var o' :| o' in objs && o'.L3? && KeyOf(c, o') == KeyOf(c, o);
      L3KeyInjective(c, o.itf, o.pfx, o'.itf, o'.pfx);
    }
  }

  lemma {:induction false} AtKeyAdd(c: Codec, o: Obj, added: set<Obj>, k: string)
    requires o.L3?
    ensures AtKey(c, added + {o}, k) == AtKey(c, added, k) + if k == KeyOf(c, o) then {o} else {}
    ensures Keys(c, added + {o}) == Keys(c, added) + {KeyOf(c, o)}
  {
  }

  lemma {:induction false} PlusWriteAt(c: Codec, db: Db, o: Obj, added: set<Obj>, k: string)
    requires o.L3?
    ensures Get(Write(Plus(c, db, added), KeyOf(c, o), o), k) == Get(Plus(c, db, added + {o}), k)
  {
    AtKeyAdd(c, o, added, k);
  }

  lemma {:induction false} PlusWrite(c: Codec, db: Db, o: Obj, added: set<Obj>)
    requires o.L3?
    ensures Write(Plus(c, db, added), KeyOf(c, o), o) == Plus(c, db, added + {o})
  {
    var left, right := Write(Plus(c, db, added), KeyOf(c, o), o), Plus(c, db, added + {o});
    AtKeyAdd(c, o, added, KeyOf(c, o));
    assert left.Keys == right.Keys;
    forall k | k in left ensures left[k] == right[k] {
      PlusWriteAt(c, db, o, added, k);
      assert left[k] == Get(left, k) && right[k] == Get(right, k);
    }
  }

  lemma {:induction false} PlusRemove(c: Codec, db: Db, k: string, added: set<Obj>)
    requires k !in Keys(c, added)
    ensures Remove(Plus(c, db, added), k) == Plus(c, Remove(db, k), added)
  {
  }

  lemma {:induction false} RemoveMinus(c: Codec, db: Db, o: Obj, removed: set<Obj>)
    requires o.L3?
    ensures Remove(Minus(c, db, removed), KeyOf(c, o)) == Minus(c, db, removed + {o})
  {
    assert Keys(c, removed + {o}) == Keys(c, removed) + {KeyOf(c, o)};
  }

  lemma {:induction false} NothingDone(c: Codec, db: Db)
    ensures Minus(c, db, {}) == db
    ensures Plus(c, db, {}) == db
  {
    assert Keys(c, {}) == {};
    forall k | k in db ensures Get(db, k) + AtKey(c, {}, k) == db[k] {
      assert AtKey(c, {}, k) == {};
    }
  }

  // ----- which interfaces exist

  lemma {:induction false} FoundAt(db: Db, k: string, o: Obj, name: string)
    requires o in Get(db, k) && Refers(o, name)
    ensures Finds(db, name)
  {
    assert Mentions(db[k], name);
  }

  lemma {:induction false} WriteFinds(db: Db, k: string, o: Obj, name: string)
    ensures Finds(Write(db, k, o), name) <==> Finds(db, name) || Refers(o, name)
  {
    var db1 := Write(db, k, o);
    if Finds(db, name) {
      var k0 :| k0 in db && Mentions(db[k0], name);
      var x :| x in db[k0] && Refers(x, name);
      FoundAt(db1, k0, x, name);
    }
    if Refers(o, name) {
      FoundAt(db1, k, o, name);
    }
    if Finds(db1, name) && !Refers(o, name) {
      var k0 :| k0 in db1 && Mentions(db1[k0], name);
      var x :| x in db1[k0] && Refers(x, name);
      FoundAt(db, k0, x, name);
    }
  }

  /** With bindings added, the interfaces they are on exist too. */
  lemma {:induction false} PlusFinds(c: Codec, db: Db, objs: set<Obj>, name: string)
    requires forall o :: o in objs ==> o.L3?
    ensures Finds(Plus(c, db, objs), name) <==> Finds(db, name) || exists o :: o in objs && o.itf == name
  {
    var db1 := Plus(c, db, objs);
    if Finds(db, name) {
      var k :| k in db && Mentions(db[k], name);
      var o :| o in db[k] && Refers(o, name);
      FoundAt(db1, k, o, name);
    }
    if o :| o in objs && o.itf == name {
      assert o in AtKey(c, objs, KeyOf(c, o));
      FoundAt(db1, KeyOf(c, o), o, name);
    }
    if Finds(db1, name) {
      var k :| k in db1 && Mentions(db1[k], name);
      var o :| o in db1[k] && Refers(o, name);
      if o in Get(db, k) {
        FoundAt(db, k, o, name);
      }
    }
  }

  /** Removing less leaves more interfaces. */
  lemma {:induction false} MinusFinds(c: Codec, db: Db, less: set<Obj>, more: set<Obj>, name: string)
    requires less <= more && Finds(Minus(c, db, more), name)
    ensures Finds(Minus(c, db, less), name) && Finds(db, name)
  {
    var db1 := Minus(c, db, more);
    var k :| k in db1 && Mentions(db1[k], name);
    assert k in Minus(c, db, less) && Minus(c, db, less)[k] == db1[k] == db[k];
  }

  // ----- the net effect of a series of calls

  function CallSet(calls: seq<Call>): set<Call> {
    set call | call in calls
  }

  predicate OnlyAdds(calls: seq<Call>) {
    forall call :: call in calls ==> call.add
  }

  function Added(c: Codec, db: Db, calls: seq<Call>): set<Obj> {
    Bindings(c, db, CallSet(calls), true)
  }

  function Removed(c: Codec, db: Db, calls: seq<Call>): set<Obj> {
    Bindings(c, db, CallSet(calls), false)
  }

  /** Something outside the removed bindings keeps the interface alive. */
  predicate Rooted(c: Codec, db: Db, calls: set<Call>, name: string) {
    Finds(Minus(c, db, Bindings(c, db, calls, false)), name)
  }

  /** Under every removed key of the interface that is present, something is about it. */
  predicate Owned(c: Codec, db: Db, calls: set<Call>, name: string) {
    forall call :: call in calls && !call.add && call.itf == name && Parses(c, call) ==>
      (CallKey(c, call) in db ==> Mentions(db[CallKey(c, call)], name))
  }

  /** Each interface with removals outlives them or owns the keys removed. Every store
      that the plugin can reach meets the second, for any calls. */
  predicate Traceable(c: Codec, db: Db, calls: set<Call>) {
    forall call :: call in calls && !call.add && Finds(db, call.itf) ==>
      Rooted(c, db, calls, call.itf) || Owned(c, db, calls, call.itf)
  }

  predicate IsAdd(c: Codec, call: Call, name: string) {
    call.add && call.itf == name && Parses(c, call)
  }

  predicate HasAdd(c: Codec, calls: seq<Call>, name: string) {
    exists call :: call in calls && IsAdd(c, call, name)
  }

  /** The calls before the first addition on an interface. */
  function Before(c: Codec, calls: seq<Call>, name: string): seq<Call>
    decreases |calls|
  {
    if calls == [] || IsAdd(c, calls[0], name) then []
    else [calls[0]] + Before(c, calls[1..], name)
  }

  /** The interface is still there when the first addition on it comes. */
  predicate Lives(c: Codec, db: Db, calls: seq<Call>, name: string) {
    Finds(Minus(c, db, Removed(c, db, Before(c, calls, name))), name)
  }

  /** The additions on interfaces that live that long. */
  function Kept(c: Codec, db: Db, calls: seq<Call>): set<Obj> {
    set call | call in calls && call.add && Parses(c, call) && Lives(c, db, calls, call.itf) :: BindingOf(c, call)
  }

  function Net(c: Codec, db: Db, calls: seq<Call>): Db {
    Plus(c, Minus(c, db, Removed(c, db, calls)), Kept(c, db, calls))
  }

  lemma {:induction false} HasAddStep(c: Codec, x: Call, xs: seq<Call>, name: string)
    ensures HasAdd(c, [x] + xs, name) <==> IsAdd(c, x, name) || HasAdd(c, xs, name)
  {
    assert x in [x] + xs;
    assert forall call :: call in xs ==> call in [x] + xs;
  }

  lemma {:induction false} BeforeConcat(c: Codec, xs: seq<Call>, ys: seq<Call>, name: string)
    ensures Before(c, xs + ys, name)
      == if HasAdd(c, xs, name) then Before(c, xs, name) else xs + Before(c, ys, name)
    decreases |xs|
  {
    if xs == [] {
      assert xs + ys == ys;
    } else {
      var x, rest := xs[0], xs[1..];
      assert xs == [x] + rest;
      assert (xs + ys)[1..] == rest + ys;
      HasAddStep(c, x, rest, name);
      if !IsAdd(c, x, name) {
        BeforeConcat(c, rest, ys, name);
      }
    }
  }

  lemma {:induction false} BeforeSnoc(c: Codec, front: seq<Call>, last: Call, name: string)
    ensures Before(c, front + [last], name)
      == if HasAdd(c, front, name) then Before(c, front, name)
         else front + if IsAdd(c, last, name) then [] else [last]
  {
    BeforeConcat(c, front, [last], name);
    assert [last][1..] == [];
  }

  lemma {:induction false} BeforeWithin(c: Codec, calls: seq<Call>, name: string)
    ensures forall call :: call in Before(c, calls, name) ==> call in calls
    decreases |calls|
  {
    if calls != [] {
      BeforeWithin(c, calls[1..], name);
    }
  }

  lemma {:induction false} RemovedWithin(c: Codec, db: Db, some: seq<Call>, all: seq<Call>)
    requires forall call :: call in some ==> call in all
    ensures Removed(c, db, some) <= Removed(c, db, all)
    ensures Added(c, db, some) <= Added(c, db, all)
  {
  }

  /** An interface that lives exists to begin with. */
  lemma {:induction false} LivesFound(c: Codec, db: Db, calls: seq<Call>, name: string)
    requires Lives(c, db, calls, name)
    ensures Finds(db, name)
  {
    MinusFinds(c, db, {}, Removed(c, db, Before(c, calls, name)), name);
  }

  lemma {:induction false} KeptWithin(c: Codec, db: Db, calls: seq<Call>)
    ensures Kept(c, db, calls) <= Added(c, db, calls)
  {
    forall call | call in calls && call.add && Parses(c, call) && Lives(c, db, calls, call.itf)
      ensures Effective(c, db, call)
    {
      LivesFound(c, db, calls, call.itf);
    }
  }

  /** Which interfaces exist after the calls so far. */
  lemma {:induction false} NetFinds(c: Codec, db: Db, calls: seq<Call>, name: string)
    ensures Finds(Net(c, db, calls), name)
      <==> Finds(Minus(c, db, Removed(c, db, calls)), name)
           || (HasAdd(c, calls, name) && Lives(c, db, calls, name))
    ensures Finds(Net(c, db, calls), name) ==> Finds(db, name)
  {
    var objs := Kept(c, db, calls);
    PlusFinds(c, Minus(c, db, Removed(c, db, calls)), objs, name);
    if HasAdd(c, calls, name) && Lives(c, db, calls, name) {
      var call :| call in calls && IsAdd(c, call, name);
      assert BindingOf(c, call) in objs;
    }
    if Lives(c, db, calls, name) {
      LivesFound(c, db, calls, name);
    }
    if Finds(Minus(c, db, Removed(c, db, calls)), name) {
      MinusFinds(c, db, {}, Removed(c, db, calls), name);
    }
  }

  /** An addition after `front` finds its interface exactly when the interface lives. */
  lemma {:induction false} AddFinds(c: Codec, db: Db, front: seq<Call>, last: Call)
    requires last.add && Parses(c, last)
    ensures Finds(Net(c, db, front), last.itf) <==> Lives(c, db, front + [last], last.itf)
  {
    var name := last.itf;
    NetFinds(c, db, front, name);
    BeforeSnoc(c, front, last, name);
    assert front + [] == front;
    if HasAdd(c, front, name) {
      BeforeWithin(c, front, name);
      RemovedWithin(c, db, Before(c, front, name), front);
      if Finds(Minus(c, db, Removed(c, db, front)), name) {
        MinusFinds(c, db, Removed(c, db, Before(c, front, name)), Removed(c, db, front), name);
      }
    }
  }

  lemma {:induction false} KeptSnoc(c: Codec, db: Db, front: seq<Call>, last: Call)
    ensures Kept(c, db, front + [last])
      == Kept(c, db, front)
         + if last.add && Parses(c, last) && Lives(c, db, front + [last], last.itf) then {BindingOf(c, last)} else {}
  {
    forall call | call in front && call.add && Parses(c, call)
      ensures Lives(c, db, front + [last], call.itf) <==> Lives(c, db, front, call.itf)
    {
      assert IsAdd(c, call, call.itf);
      BeforeSnoc(c, front, last, call.itf);
    }
  }

  lemma {:induction false} RemovedSnoc(c: Codec, db: Db, front: seq<Call>, last: Call)
    ensures Removed(c, db, front + [last])
      == Removed(c, db, front) + if !last.add && Effective(c, db, last) then {BindingOf(c, last)} else {}
    ensures CallSet(front + [last]) == CallSet(front) + {last}
  {
    assert forall call :: call in front + [last] <==> call in front || call == last;
  }

  /** A removal whose interface is already gone finds nothing under its key either. */
  lemma {:induction false} GoneKey(c: Codec, db: Db, front: seq<Call>, last: Call)
    requires !last.add && Effective(c, db, last) && !Finds(Net(c, db, front), last.itf)
    requires Traceable(c, db, CallSet(front + [last]))
    ensures CallKey(c, last) !in Minus(c, db, Removed(c, db, front))
  {
    var calls := front + [last];
    RemovedSnoc(c, db, front, last);
    NetFinds(c, db, front, last.itf);
    assert last in CallSet(calls);
    if Rooted(c, db, CallSet(calls), last.itf) {
      MinusFinds(c, db, Removed(c, db, front), Removed(c, db, calls), last.itf);
    }
  }

  lemma {:induction false} NetAdd(c: Codec, hw: Hw, db: Db, front: seq<Call>, last: Call)
    requires last.add
    ensures Exec(c, hw, Net(c, db, front), last).0 == Net(c, db, front + [last])
  {
    KeptSnoc(c, db, front, last);
    RemovedSnoc(c, db, front, last);
    assert Removed(c, db, front) + {} == Removed(c, db, front);
    assert Kept(c, db, front) + {} == Kept(c, db, front);
    if Parses(c, last) {
      AddFinds(c, db, front, last);
      PlusWrite(c, Minus(c, db, Removed(c, db, front)), BindingOf(c, last), Kept(c, db, front));
    }
  }

  /** Taking one more binding out of the net store. */
  lemma {:induction false} NetWithout(c: Codec, db: Db, front: seq<Call>, last: Call)
    requires Sound(c) && !last.add && Effective(c, db, last)
    requires Added(c, db, front + [last]) !! Removed(c, db, front + [last])
    ensures var k, rest := CallKey(c, last), Minus(c, db, Removed(c, db, front));
      && Remove(Net(c, db, front), k) == Net(c, db, front + [last])
      && (k !in rest ==> Net(c, db, front + [last]) == Net(c, db, front))
  {
    var calls, o := front + [last], BindingOf(c, last);
    var k, rest := KeyOf(c, o), Minus(c, db, Removed(c, db, front));
    KeptSnoc(c, db, front, last);
    RemovedSnoc(c, db, front, last);
    assert Kept(c, db, calls) == Kept(c, db, front);
    KeptWithin(c, db, calls);
    assert o in Removed(c, db, calls);
    KeyApart(c, o, Kept(c, db, front));
    PlusRemove(c, rest, k, Kept(c, db, front));
    RemoveMinus(c, db, o, Removed(c, db, front));
    assert k !in rest ==> Remove(rest, k) == rest;
  }

  lemma {:induction false} NetRemove(c: Codec, hw: Hw, db: Db, front: seq<Call>, last: Call)
    requires Sound(c) && !last.add
    requires Traceable(c, db, CallSet(front + [last]))
    requires Added(c, db, front + [last]) !! Removed(c, db, front + [last])
    ensures Exec(c, hw, Net(c, db, front), last).0 == Net(c, db, front + [last])
  {
    NetFinds(c, db, front, last.itf);
    if Effective(c, db, last) {
      NetWithout(c, db, front, last);
      if !Finds(Net(c, db, front), last.itf) {
        GoneKey(c, db, front, last);
      }
    } else {
      KeptSnoc(c, db, front, last);
      RemovedSnoc(c, db, front, last);
      assert Removed(c, db, front + [last]) == Removed(c, db, front);
      assert Kept(c, db, front + [last]) == Kept(c, db, front);
    }
  }

  lemma {:induction false} ExecLast(c: Codec, hw: Hw, db: Db, rc: Rc, front: seq<Call>, last: Call)
    ensures var r := ExecAll(c, hw, db, rc, front);
      ExecAll(c, hw, db, rc, front + [last]) == Exec(c, hw, r.0, last)
  {
    ExecConcat(c, hw, db, rc, front, [last]);
    assert [last][1..] == [];
  }

  lemma {:induction false} TraceableFront(c: Codec, db: Db, front: seq<Call>, last: Call)
    requires Traceable(c, db, CallSet(front + [last]))
    ensures Traceable(c, db, CallSet(front))
  {
    var some, all := CallSet(front), CallSet(front + [last]);
    RemovedSnoc(c, db, front, last);
    forall call | call in some && !call.add && Finds(db, call.itf)
      ensures Rooted(c, db, some, call.itf) || Owned(c, db, some, call.itf)
    {
      assert call in all;
      if Rooted(c, db, all, call.itf) {
        MinusFinds(c, db, Bindings(c, db, some, false), Bindings(c, db, all, false), call.itf);
      }
    }
  }

  /** The exact effect of any series of calls in which nothing is both added and removed:
      what is removed goes, and what is added is there, unless the removals before the
      first addition on an interface have taken the last object that kept it alive; then
      all additions on it are lost. Repetitions do not matter. */
  lemma {:induction false} NetEffect(c: Codec, hw: Hw, db: Db, rc: Rc, calls: seq<Call>)
    requires Sound(c) && Traceable(c, db, CallSet(calls))
    requires Added(c, db, calls) !! Removed(c, db, calls)
    ensures ExecAll(c, hw, db, rc, calls).0 == Net(c, db, calls)
    decreases |calls|
  {
    if calls == [] {
      assert Removed(c, db, []) == {} && Kept(c, db, []) == {};
      NothingDone(c, db);
    } else {
      var front, last := calls[..|calls| - 1], calls[|calls| - 1];
      assert calls == front + [last];
      TraceableFront(c, db, front, last);
      RemovedWithin(c, db, front, calls);
      NetEffect(c, hw, db, rc, front);
      ExecLast(c, hw, db, rc, front, last);
      if last.add {
        NetAdd(c, hw, db, front, last);
      } else {
        NetRemove(c, hw, db, front, last);
      }
    }
  }

  // ----- when order matters

  /** The position of the last call for a key that finds its interface; -1 for none. */
  function LastTouch(c: Codec, hw: Hw, db: Db, rc: Rc, calls: seq<Call>, k: string): (i: int)
    ensures -1 <= i < |calls|
    ensures i >= 0 ==> Parses(c, calls[i]) && CallKey(c, calls[i]) == k
    decreases |calls|
  {
    if calls == [] then -1
    else
      var front, last := calls[..|calls| - 1], calls[|calls| - 1];
      if Touches(c, ExecAll(c, hw, db, rc, front).0, last, k) then |calls| - 1
      else LastTouch(c, hw, db, rc, front, k)
  }

  predicate Touches(c: Codec, db: Db, call: Call, k: string) {
    Effective(c, db, call) && CallKey(c, call) == k
  }

  /** Some call removes the key. */
  predicate Drops(c: Codec, hw: Hw, db: Db, rc: Rc, calls: seq<Call>, k: string)
    decreases |calls|
  {
    calls != [] &&
    var front, last := calls[..|calls| - 1], calls[|calls| - 1];
    || (!last.add && Touches(c, ExecAll(c, hw, db, rc, front).0, last, k))
    || Drops(c, hw, db, rc, front, k)
  }

  /** What one call does to one key. */
  lemma {:induction false} ExecSlot(c: Codec, hw: Hw, db: Db, call: Call, k: string)
    ensures var db' := Exec(c, hw, db, call).0;
      if !Touches(c, db, call, k) then (k in db' <==> k in db) && Get(db', k) == Get(db, k)
      else if call.add then Get(db', k) == Get(db, k) + {BindingOf(c, call)}
      else k !in db'
  {
  }

  lemma {:induction false} SameKey(c: Codec, call: Call, call': Call)
    requires Sound(c) && Parses(c, call) && Parses(c, call') && CallKey(c, call) == CallKey(c, call')
    ensures BindingOf(c, call) == BindingOf(c, call')
  {
    var o, o' := BindingOf(c, call), BindingOf(c, call');
    L3KeyInjective(c, o.itf, o.pfx, o'.itf, o'.pfx);
  }

  /** What is under a key now, given the last call that touched it and whether any removed
      it, and what was there to begin with. */
  predicate Decided(c: Codec, db: Db, db': Db, k: string, last: Option<Call>, drops: bool)
    requires last.Some? ==> Parses(c, last.value)
  {
    match last
    case None => !drops && (k in db' <==> k in db) && Get(db', k) == Get(db, k)
    case Some(call) =>
      if call.add then Get(db', k) == {BindingOf(c, call)} + if drops then {} else Get(db, k)
      else k !in db' && drops
  }

  lemma {:induction false} StepDecides(
    c: Codec, hw: Hw, db: Db, db1: Db, call: Call, k: string, last: Option<Call>, drops: bool)
    requires Sound(c) && (last.Some? ==> Parses(c, last.value) && CallKey(c, last.value) == k)
    requires Decided(c, db, db1, k, last, drops)
    ensures var touches := Touches(c, db1, call, k);
      Decided(c, db, Exec(c, hw, db1, call).0, k,
              if touches then Some(call) else last, drops || (touches && !call.add))
  {
    ExecSlot(c, hw, db1, call, k);
    if Touches(c, db1, call, k) && last.Some? {
      SameKey(c, call, last.value);
    }
  }

  lemma {:induction false} LastDecides(c: Codec, hw: Hw, db: Db, rc: Rc, calls: seq<Call>, k: string)
    requires Sound(c)
    ensures var i := LastTouch(c, hw, db, rc, calls, k);
      Decided(c, db, ExecAll(c, hw, db, rc, calls).0, k,
              if i < 0 then None else Some(calls[i]), Drops(c, hw, db, rc, calls, k))
    decreases |calls|
  {
    if calls != [] {
      var front, last := calls[..|calls| - 1], calls[|calls| - 1];
      var db1 := ExecAll(c, hw, db, rc, front).0;
      var i := LastTouch(c, hw, db, rc, front, k);
      LastDecides(c, hw, db, rc, front, k);
      assert calls == front + [last];
      ExecLast(c, hw, db, rc, front, last);
      StepDecides(c, hw, db, db1, last, k,
                  if i < 0 then None else Some(front[i]), Drops(c, hw, db, rc, front, k));
    }
  }

  /** For any calls on any store: a key is decided by the last call for it that found its
      interface. After an addition it holds that binding and, unless the key was removed
      on the way, what it held before; after a removal it is gone; and if there is no such
      call it is as it was. */
  lemma {:induction false} LastCallWins(c: Codec, hw: Hw, db: Db, rc: Rc, calls: seq<Call>, k: string)
    requires Sound(c)
    ensures var i, db' := LastTouch(c, hw, db, rc, calls, k), ExecAll(c, hw, db, rc, calls).0;
      if i < 0 then
        !Drops(c, hw, db, rc, calls, k) && (k in db' <==> k in db) && Get(db', k) == Get(db, k)
      else if calls[i].add then
        Get(db', k)
        == {BindingOf(c, calls[i])} + if Drops(c, hw, db, rc, calls, k) then {} else Get(db, k)
      else k !in db' && Drops(c, hw, db, rc, calls, k)
  {
    LastDecides(c, hw, db, rc, calls, k);
  }
}
