/** The effect of address calls when order matters, read off the list of calls and the
    store before it: nothing here looks at what the store is on the way. */
module AddressOrder {
  import opened Text
  import opened SysUtil
  import opened Sysrepo
  import opened ObjectStore
  import opened AddressChanges
  import opened AddressEffects
  import opened AddressBatches

  // ----- the last call for a binding

  predicate IsFor(c: Codec, call: Call, o: Obj) {
    Parses(c, call) && BindingOf(c, call) == o
  }

  /** Whether the last call for a binding adds it; `None` if there is no call for it. */
  function LastFor(c: Codec, calls: seq<Call>, o: Obj): Option<bool>
    decreases |calls|
  {
    if calls == [] then None
    else
      var later := LastFor(c, calls[1..], o);
      if later.Some? then later
      else if IsFor(c, calls[0], o) then Some(calls[0].add)
      else None
  }

  lemma {:induction false} LastForConcat(c: Codec, xs: seq<Call>, ys: seq<Call>, o: Obj)
    ensures LastFor(c, xs + ys, o) == if LastFor(c, ys, o).Some? then LastFor(c, ys, o) else LastFor(c, xs, o)
    decreases |xs|
  {
    if xs == [] {
      assert xs + ys == ys;
    } else {
      assert (xs + ys)[1..] == xs[1..] + ys;
      LastForConcat(c, xs[1..], ys, o);
    }
  }

  lemma {:induction false} LastForSnoc(c: Codec, front: seq<Call>, last: Call, o: Obj)
    ensures LastFor(c, front + [last], o) == if IsFor(c, last, o) then Some(last.add) else LastFor(c, front, o)
  {
    assert [last][1..] == [];
    LastForConcat(c, front, [last], o);
  }

  // ----- interfaces that outlive all removals

  /** Some call removes the binding. */
  predicate Discards(c: Codec, calls: seq<Call>, o: Obj) {
    exists call :: call in calls && !call.add && IsFor(c, call, o)
  }

  lemma {:induction false} ExecFindsLess(c: Codec, hw: Hw, db: Db, call: Call, name: string)
    requires Finds(Exec(c, hw, db, call).0, name)
    ensures Finds(db, name)
  {
    if Effective(c, db, call) {
      var o := BindingOf(c, call);
      if call.add {
        WriteFinds(db, KeyOf(c, o), o, name);
      } else {
        var db1 := Remove(db, KeyOf(c, o));
        var k :| k in db1 && Mentions(db1[k], name);
        assert Mentions(db[k], name);
      }
    }
  }

  lemma {:induction false} AllFindsLess(c: Codec, hw: Hw, db: Db, rc: Rc, calls: seq<Call>, name: string)
    requires Finds(ExecAll(c, hw, db, rc, calls).0, name)
    ensures Finds(db, name)
    decreases |calls|
  {
    if calls != [] {
      var (db1, rc1) := Exec(c, hw, db, calls[0]);
      AllFindsLess(c, hw, db1, rc1, calls[1..], name);
      ExecFindsLess(c, hw, db, calls[0], name);
    }
  }

  /** What lies outside the removed keys stays while the calls run. */
  lemma {:induction false} OutsideStays(c: Codec, hw: Hw, db: Db, rc: Rc, calls: seq<Call>, k: string, o: Obj)
    requires o in Get(db, k) && k !in Keys(c, Removed(c, db, calls))
    ensures o in Get(ExecAll(c, hw, db, rc, calls).0, k)
    decreases |calls|
  {
    if calls != [] {
      var front, last := calls[..|calls| - 1], calls[|calls| - 1];
      assert calls == front + [last];
      RemovedWithin(c, db, front, calls);
      OutsideStays(c, hw, db, rc, front, k, o);
      ExecLast(c, hw, db, rc, front, last);
      var db1 := ExecAll(c, hw, db, rc, front).0;
      if Effective(c, db1, last) && !last.add {
        AllFindsLess(c, hw, db, rc, front, last.itf);
        assert BindingOf(c, last) in Removed(c, db, calls);
        assert CallKey(c, last) in Keys(c, Removed(c, db, calls));
      }
    }
  }

  lemma {:induction false} RootedLives(
    c: Codec, hw: Hw, db: Db, rc: Rc, front: seq<Call>, calls: seq<Call>, name: string)
    requires front <= calls && Rooted(c, db, CallSet(calls), name)
    ensures Finds(ExecAll(c, hw, db, rc, front).0, name)
  {
    var db1 := Minus(c, db, Removed(c, db, calls));
    var k :| k in db1 && Mentions(db1[k], name);
    var o :| o in db1[k] && Refers(o, name);
    RemovedWithin(c, db, front, calls);
    OutsideStays(c, hw, db, rc, front, k, o);
    FoundAt(ExecAll(c, hw, db, rc, front).0, k, o, name);
  }

  /** On any store, for a binding on an interface that outlives all removals: the last call
      for it decides, without regard to anything else in the series. Removed, its key is
      gone; added, the key holds it, and what was there before unless some call removed
      that; and untouched if no call is for it. Both kinds of calls may be for it. */
  lemma {:induction false} RootedBinding(
    c: Codec, hw: Hw, db: Db, rc: Rc, calls: seq<Call>, o: Obj)
    requires Sound(c) && o.L3? && Rooted(c, db, CallSet(calls), o.itf)
    ensures var k, db' := KeyOf(c, o), ExecAll(c, hw, db, rc, calls).0;
      match LastFor(c, calls, o)
      case None => (k in db' <==> k in db) && Get(db', k) == Get(db, k)
      case Some(add) =>
        if add then Get(db', k) == {o} + if Discards(c, calls, o) then {} else Get(db, k)
        else k !in db'
  {
    RootedUpTo(c, hw, db, rc, calls, calls, o);
  }

  lemma {:induction false} RootedUpTo(
    c: Codec, hw: Hw, db: Db, rc: Rc, calls: seq<Call>, all: seq<Call>, o: Obj)
    requires Sound(c) && o.L3? && Rooted(c, db, CallSet(all), o.itf) && calls <= all
    ensures var k, db' := KeyOf(c, o), ExecAll(c, hw, db, rc, calls).0;
      match LastFor(c, calls, o)
      case None => (k in db' <==> k in db) && Get(db', k) == Get(db, k) && !Discards(c, calls, o)
      case Some(add) =>
        if add then Get(db', k) == {o} + if Discards(c, calls, o) then {} else Get(db, k)
        else k !in db' && Discards(c, calls, o)
    decreases |calls|
  {
    if calls != [] {
      var front, last := calls[..|calls| - 1], calls[|calls| - 1];
      var db1 := ExecAll(c, hw, db, rc, front).0;
      assert calls == front + [last];
      RootedUpTo(c, hw, db, rc, front, all, o);
      ExecLast(c, hw, db, rc, front, last);
      LastForSnoc(c, front, last, o);
      DiscardsSnoc(c, front, last, o);
      RootedLives(c, hw, db, rc, front, all, o.itf);
      ForTouches(c, db1, last, o);
      ExecSlot(c, hw, db1, last, KeyOf(c, o));
    }
  }

  lemma {:induction false} DiscardsSnoc(c: Codec, front: seq<Call>, last: Call, o: Obj)
    ensures Discards(c, front + [last], o) <==> Discards(c, front, o) || (!last.add && IsFor(c, last, o))
  {
    assert forall call :: call in front + [last] <==> call in front || call == last;
  }

  /** While its interface is there, the calls for a binding are those that touch its key. */
  lemma {:induction false} ForTouches(c: Codec, db: Db, call: Call, o: Obj)
    requires Sound(c) && o.L3? && Finds(db, o.itf)
    ensures Touches(c, db, call, KeyOf(c, o)) <==> IsFor(c, call, o)
  {
    if Parses(c, call) {
      var x := BindingOf(c, call);
      if KeyOf(c, x) == KeyOf(c, o) {
        L3KeyInjective(c, o.itf, o.pfx, x.itf, x.pfx);
      }
    }
  }

  // ----- every store the plugin reaches

  /** Something other than a binding keeps the interface alive. */
  predicate Outside(db: Db, name: string) {
    exists k :: k in db && !IsL3Key(k) && Mentions(db[k], name)
  }

  /** A binding is there after some calls, if its interface is. */
  predicate Present(c: Codec, db: Db, calls: seq<Call>, o: Obj)
    requires o.L3?
  {
    match LastFor(c, calls, o)
    case Some(add) => add
    case None => KeyOf(c, o) in db
  }

  ghost predicate Held(c: Codec, db: Db, calls: seq<Call>, name: string) {
    Outside(db, name) || exists p :: Present(c, db, calls, L3(name, p))
  }

  /** Something keeps the interface alive at each point of the series. */
  ghost predicate Survives(c: Codec, db: Db, calls: seq<Call>, name: string)
    decreases |calls|
  {
    Held(c, db, calls, name) && (calls == [] || Survives(c, db, calls[..|calls| - 1], name))
  }

  lemma {:induction false} SurvivesSnoc(c: Codec, db: Db, front: seq<Call>, last: Call, name: string)
    ensures Survives(c, db, front + [last], name)
      <==> Survives(c, db, front, name) && Held(c, db, front + [last], name)
  {
    assert (front + [last])[..|front|] == front;
  }

  lemma {:induction false} TidyAt(c: Codec, db: Db, o: Obj)
    requires Sound(c) && Tidy(c, db) && o.L3?
    ensures KeyOf(c, o) in db ==> db[KeyOf(c, o)] == {o}
  {
    var k := KeyOf(c, o);
    KeysDisjoint(c, "", o.itf, o.pfx, 0);
    if k in db {
      forall x | x in db[k] ensures x == o {
        L3KeyInjective(c, o.itf, o.pfx, x.itf, x.pfx);
      }
      var x :| x in db[k];
    }
  }

  lemma {:induction false} TidyFinds(c: Codec, db: Db, name: string)
    requires Sound(c) && Tidy(c, db)
    ensures Finds(db, name) <==> Outside(db, name) || exists p :: L3Key(c, name, p) in db
  {
    if p :| L3Key(c, name, p) in db {
      TidyAt(c, db, L3(name, p));
      FoundAt(db, L3Key(c, name, p), L3(name, p), name);
    }
    if Finds(db, name) && !Outside(db, name) {
      var k :| k in db && Mentions(db[k], name);
      var o :| o in db[k] && Refers(o, name);
      assert KeyOf(c, o) == k && o.L3?;
      assert L3Key(c, name, o.pfx) in db;
    }
  }

  /** The store is what the calls so far make of it. */
  ghost predicate Settled(c: Codec, db: Db, calls: seq<Call>, db': Db) {
    && Tidy(c, db')
    && (forall k :: !IsL3Key(k) ==> (k in db' <==> k in db) && Get(db', k) == Get(db, k))
    && (forall name, p :: L3Key(c, name, p) in db'
          <==> Survives(c, db, calls, name) && Present(c, db, calls, L3(name, p)))
  }

  lemma {:induction false} SettledFinds(c: Codec, db: Db, calls: seq<Call>, db': Db, name: string)
    requires Sound(c) && Settled(c, db, calls, db')
    ensures Finds(db', name) <==> Survives(c, db, calls, name)
  {
    TidyFinds(c, db', name);
    assert Outside(db', name) <==> Outside(db, name);
    if Outside(db, name) {
      OutsideSurvives(c, db, calls, name);
    }
    if Survives(c, db, calls, name) && !Outside(db, name) {
      var p :| Present(c, db, calls, L3(name, p));
      assert L3Key(c, name, p) in db';
    }
  }

  lemma {:induction false} OutsideSurvives(c: Codec, db: Db, calls: seq<Call>, name: string)
    requires Outside(db, name)
    ensures Survives(c, db, calls, name)
    decreases |calls|
  {
    if calls != [] {
      OutsideSurvives(c, db, calls[..|calls| - 1], name);
    }
  }

  lemma {:induction false} PresentSnoc(c: Codec, db: Db, front: seq<Call>, last: Call, o: Obj)
    requires o.L3?
    ensures Present(c, db, front + [last], o) <==> if IsFor(c, last, o) then last.add else Present(c, db, front, o)
  {
    LastForSnoc(c, front, last, o);
  }

  /** A call for none of its bindings leaves an interface as alive as it was. */
  lemma {:induction false} OtherSurvives(c: Codec, db: Db, front: seq<Call>, last: Call, name: string)
    requires forall p :: !IsFor(c, last, L3(name, p))
    ensures Survives(c, db, front + [last], name) <==> Survives(c, db, front, name)
    ensures forall p :: Present(c, db, front + [last], L3(name, p)) <==> Present(c, db, front, L3(name, p))
  {
    SurvivesSnoc(c, db, front, last, name);
    forall p ensures Present(c, db, front + [last], L3(name, p)) <==> Present(c, db, front, L3(name, p)) {
      PresentSnoc(c, db, front, last, L3(name, p));
    }
  }

  lemma {:induction false} TidyWrite(c: Codec, db: Db, o: Obj)
    requires Sound(c) && Tidy(c, db) && o.L3?
    ensures Tidy(c, Write(db, KeyOf(c, o), o))
  {
    TidyAt(c, db, o);
    assert o in Write(db, KeyOf(c, o), o)[KeyOf(c, o)];
  }

  /** The keys of bindings after one call. */
  lemma {:induction false} ExecKeys(c: Codec, hw: Hw, db: Db, call: Call, o: Obj)
    requires Sound(c) && o.L3?
    ensures KeyOf(c, o) in Exec(c, hw, db, call).0
      <==> if Finds(db, call.itf) && IsFor(c, call, o) then call.add else KeyOf(c, o) in db
  {
    if Effective(c, db, call) {
      var x := BindingOf(c, call);
      if KeyOf(c, x) == KeyOf(c, o) {
        L3KeyInjective(c, o.itf, o.pfx, x.itf, x.pfx);
      }
    }
  }

  lemma {:induction false} ExecTidy(c: Codec, hw: Hw, db: Db, call: Call)
    requires Sound(c) && Tidy(c, db)
    ensures var db' := Exec(c, hw, db, call).0;
      && Tidy(c, db')
      && forall k :: !IsL3Key(k) ==> (k in db' <==> k in db) && Get(db', k) == Get(db, k)
  {
    if Effective(c, db, call) {
      var o := BindingOf(c, call);
      KeysDisjoint(c, "", o.itf, o.pfx, 0);
      TidyWrite(c, db, o);
      TidyWithout(c, db, {KeyOf(c, o)});
    }
  }

  lemma {:induction false} StepSettles(
    c: Codec, hw: Hw, db: Db, front: seq<Call>, last: Call, db1: Db, name: string, p: RoutePrefix)
    requires Sound(c) && Settled(c, db, front, db1)
    ensures L3Key(c, name, p) in Exec(c, hw, db1, last).0
      <==> Survives(c, db, front + [last], name) && Present(c, db, front + [last], L3(name, p))
  {
    var o := L3(name, p);
    ExecKeys(c, hw, db1, last, o);
    SettledFinds(c, db, front, db1, name);
    assert KeyOf(c, o) == L3Key(c, name, p);
    if last.itf != name || !Parses(c, last) {
      OtherSurvives(c, db, front, last, name);
    } else {
      PresentSnoc(c, db, front, last, o);
      SurvivesSnoc(c, db, front, last, name);
    }
  }

  /** The exact effect of any series of calls on a tidy store, also where a binding is both
      added and removed and where interfaces lose what keeps them alive: a binding is there
      afterwards if and only if its interface was kept alive at every point of the series
      and the last call for it added it, or there was none and it was there before. All
      else is as it was. */
  lemma {:induction false} ExactEffect(c: Codec, hw: Hw, db: Db, rc: Rc, calls: seq<Call>)
    requires Sound(c) && Tidy(c, db)
    ensures Settled(c, db, calls, ExecAll(c, hw, db, rc, calls).0)
    decreases |calls|
  {
    if calls == [] {
      forall name, p ensures L3Key(c, name, p) in db ==> Survives(c, db, [], name) {
        if L3Key(c, name, p) in db {
          assert Present(c, db, [], L3(name, p));
        }
      }
    } else {
      var front, last := calls[..|calls| - 1], calls[|calls| - 1];
      var db1 := ExecAll(c, hw, db, rc, front).0;
      assert calls == front + [last];
      ExactEffect(c, hw, db, rc, front);
      ExecLast(c, hw, db, rc, front, last);
      ExecTidy(c, hw, db1, last);
      forall name, p
        ensures L3Key(c, name, p) in Exec(c, hw, db1, last).0
          <==> Survives(c, db, calls, name) && Present(c, db, calls, L3(name, p))
      {
        StepSettles(c, hw, db, front, last, db1, name, p);
      }
    }
  }

  /** Tidy stores that agree off the binding keys and on which of these there are. */
  lemma {:induction false} TidySame(c: Codec, db1: Db, db2: Db)
    requires Sound(c) && Tidy(c, db1) && Tidy(c, db2)
    requires forall k :: !IsL3Key(k) ==> (k in db1 <==> k in db2) && Get(db1, k) == Get(db2, k)
    requires forall name, p :: L3Key(c, name, p) in db1 <==> L3Key(c, name, p) in db2
    ensures db1 == db2
  {
    forall k ensures (k in db1 <==> k in db2) && (k in db1 ==> db1[k] == db2[k]) {
      if IsL3Key(k) {
        TidyWithin(c, db1, db2, k);
        TidyWithin(c, db2, db1, k);
      } else {
        assert Get(db1, k) == Get(db2, k);
      }
    }
  }

  lemma {:induction false} TidyWithin(c: Codec, db1: Db, db2: Db, k: string)
    requires Sound(c) && Tidy(c, db1) && Tidy(c, db2) && IsL3Key(k)
    requires forall name, p :: L3Key(c, name, p) in db1 <==> L3Key(c, name, p) in db2
    ensures k in db1 ==> k in db2 && db1[k] == db2[k]
  {
    if k in db1 {
      var o :| o in db1[k];
      assert k == L3Key(c, o.itf, o.pfx);
      TidyAt(c, db1, o);
      TidyAt(c, db2, o);
    }
  }

  /** Being settled leaves no choice: two such stores are the same. */
  lemma {:induction false} SettledUnique(c: Codec, db: Db, calls: seq<Call>, db1: Db, db2: Db)
    requires Sound(c) && Settled(c, db, calls, db1) && Settled(c, db, calls, db2)
    ensures db1 == db2
  {
    TidySame(c, db1, db2);
  }

  /** The code of a series is that of its last call: an invalid argument unless something
      kept its interface alive at every point before; otherwise a failure if the address
      does not parse or VPP refuses the binding to be added, and OK if not. */
  lemma {:induction false} ExactCode(c: Codec, hw: Hw, db: Db, rc: Rc, front: seq<Call>, last: Call)
    requires Sound(c) && Tidy(c, db)
    ensures var r := ExecAll(c, hw, db, rc, front + [last]);
      r.1 ==
        if !Survives(c, db, front, last.itf) then InvalArg
        else if !Parses(c, last) then OperationFailed
        else if last.add && !hw(r.0, CallKey(c, last), BindingOf(c, last)) then OperationFailed
        else Ok
  {
    var db1 := ExecAll(c, hw, db, rc, front).0;
    ExactEffect(c, hw, db, rc, front);
    SettledFinds(c, db, front, db1, last.itf);
    ExecLast(c, hw, db, rc, front, last);
  }

  // ----- an address that moves to another interface

  lemma {:induction false} OutsideRooted(c: Codec, db: Db, calls: set<Call>, name: string)
    requires Outside(db, name)
    ensures Rooted(c, db, calls, name)
  {
    var k :| k in db && !IsL3Key(k) && Mentions(db[k], name);
    var gone := Bindings(c, db, calls, false);
    if k in Keys(c, gone) {
      var o :| o in gone && o.L3? && KeyOf(c, o) == k;
      KeysDisjoint(c, "", o.itf, o.pfx, 0);
    }
    assert Minus(c, db, gone)[k] == db[k];
  }

  /** A created block after a deleted one: its own calls, between strays. */
  lemma {:induction false} LastForCreated(c: Codec, a: Acc, b: Block, o: Obj)
    requires b.add && a.oldAddr != ""
    ensures LastFor(c, BlockCalls(c, a, b), o)
      == if IsFor(c, Call(true, b.itf, b.ip, LenAfter(c, a.newLen, b.subnet)), o) then Some(true)
         else if IsFor(c, Call(false, b.itf, a.oldAddr, a.oldLen), o) then Some(false)
         else if IsFor(c, Call(true, b.itf, b.ip, a.newLen), o) then Some(true)
         else None
  {
    var stray := Call(false, b.itf, a.oldAddr, a.oldLen);
    var early := Call(true, b.itf, b.ip, a.newLen);
    var own := Call(true, b.itf, b.ip, LenAfter(c, a.newLen, b.subnet));
    assert BlockCalls(c, a, b) == [stray, stray, early, stray] + [own];
    assert [stray, stray, early, stray] == [stray, stray, early] + [stray];
    assert [stray, stray, early] == [stray, stray] + [early];
    assert [stray, stray] == [stray] + [stray] && [stray][1..] == [];
    LastForSnoc(c, [stray, stray, early, stray], own, o);
    LastForSnoc(c, [stray, stray, early], stray, o);
    LastForSnoc(c, [stray, stray], early, o);
    LastForSnoc(c, [stray], stray, o);
  }

  /** Creations of other addresses on the interface, or of any on others. */
  predicate OtherCreations(c: Codec, bs: seq<Block>, name: string, ip: string) {
    forall i :: 0 <= i < |bs| ==>
      Keyed(bs[i]) && bs[i].add && (bs[i].itf == name ==> c.parse(bs[i].ip) != c.parse(ip))
  }

  predicate On(bs: seq<Block>, name: string) {
    exists i :: 0 <= i < |bs| && bs[i].itf == name
  }

  /** Each creation on an interface repeats there the removal last made elsewhere. */
  lemma {:induction false} StrayRemovals(c: Codec, a: Acc, bs: seq<Block>, o: Obj)
    requires Boundary(a) && a.oldAddr != "" && o.L3? && IsFor(c, Call(false, o.itf, a.oldAddr, a.oldLen), o)
    requires OtherCreations(c, bs, o.itf, a.oldAddr)
    ensures LastFor(c, Calls(c, a, Stream(bs)), o) == if On(bs, o.itf) then Some(false) else None
    decreases |bs|
  {
    if bs == [] {
      assert Calls(c, a, []) == [];
    } else {
      var b, rest := bs[0], bs[1..];
      var a1 := After(c, a, b);
      assert OtherCreations(c, rest, o.itf, a.oldAddr);
      assert On(bs, o.itf) <==> b.itf == o.itf || On(rest, o.itf) by {
        assert forall i :: 1 <= i < |bs| ==> bs[i] == rest[i - 1];
        assert forall i :: 0 <= i < |rest| ==> rest[i] == bs[i + 1];
      }
      BlockStep(c, a, b, Stream(rest));
      LastForConcat(c, BlockCalls(c, a, b), Calls(c, a1, Stream(rest)), o);
      LastForCreated(c, a, b, o);
      StrayRemovals(c, a1, rest, o);
    }
  }

  /** A block deleted on some interface and one created with the same address and length
      on this one. */
  predicate Moves(c: Codec, d: Block, b: Block) {
    && Keyed(d) && Keyed(b) && !d.add && b.add
    && c.parse(b.ip).Some? && c.parse(d.ip) == c.parse(b.ip)
    && LenAfter(c, 0, d.subnet) == LenAfter(c, 0, b.subnet)
  }

  function MovedTo(c: Codec, b: Block): Obj
    requires c.parse(b.ip).Some?
  {
    L3(b.itf, RoutePrefix(c.parse(b.ip).value, LenAfter(c, 0, b.subnet)))
  }

  lemma {:induction false} MovedLast(c: Codec, d: Block, b: Block, rest: seq<Block>)
    requires Moves(c, d, b) && OtherCreations(c, rest, b.itf, b.ip)
    ensures LastFor(c, Calls(c, START, Stream([d, b] + rest)), MovedTo(c, b)) == Some(!On(rest, b.itf))
  {
    var a1 := After(c, START, d);
    var a2 := After(c, a1, b);
    var o := MovedTo(c, b);
    var bs, tail := [d, b] + rest, [b] + rest;
    assert bs[0] == d && bs[1..] == tail && tail[0] == b && tail[1..] == rest;
    BlockStep(c, START, d, Stream(tail));
    BlockStep(c, a1, b, Stream(rest));
    LastForConcat(c, BlockCalls(c, START, d), Calls(c, a1, Stream(tail)), o);
    LastForConcat(c, BlockCalls(c, a1, b), Calls(c, a2, Stream(rest)), o);
    LastForCreated(c, a1, b, o);
    StrayRemovals(c, a2, rest, o);
  }

  /** Moving an address: deleted on one interface and created with the same length on
      another, and then further addresses created. Although nothing asks for its removal
      there, the moved address is gone again if and only if one of the later creations is
      on its new interface. */
  lemma {:induction false} MovedAddress(
    c: Codec, hw: Hw, db: Db, event: Event, d: Block, b: Block, rest: seq<Block>)
    requires Sound(c) && Moves(c, d, b) && OtherCreations(c, rest, b.itf, b.ip)
    requires event == Verify || event == Enabled
    requires Outside(db, b.itf)
    ensures var o := MovedTo(c, b);
      var db' := Interpret(c, hw, db, event, Ok, Stream([d, b] + rest)).0;
      if On(rest, b.itf) then KeyOf(c, o) !in db' else o in Get(db', KeyOf(c, o))
  {
    var calls := Calls(c, START, Stream([d, b] + rest));
    MovedLast(c, d, b, rest);
    OutsideRooted(c, db, CallSet(calls), b.itf);
    RootedBinding(c, hw, db, Ok, calls, MovedTo(c, b));
  }
}
