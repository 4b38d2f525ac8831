/** Whole commits through the three IETF interface subscriptions: one that creates an
    interface with its addresses, one that deletes it with them, and the two together. */
module InterfaceCommits {
  import opened Text
  import opened SysUtil
  import opened Sysrepo
  import opened ObjectStore
  import opened AddressEffects
  import A = AddressChanges
  import B = AddressBatches
  import R = AddressReadings
  import L = AddressLaws
  import I = InterfaceChanges

  /** The subscriptions' priorities order the callbacks: the interface first, then its
      IPv4 addresses, then its IPv6 addresses. */
  function CommitAll(c: Codec, hw: Hw, s: Store, ifs: seq<I.Change>, v4: seq<A.Change>, v6: seq<A.Change>):
    (Store, Rc, Rc, Rc)
  {
    match I.Ietf(hw, s, Verify, true, ifs)
    case Crashed => (s, OperationFailed, OperationFailed, OperationFailed)
    case Return(rc1, s1) =>
      var (db2, rc2) := A.Interpret(c, hw, s1.db, Verify, Ok, v4);
      var (db3, rc3) := A.Interpret(c, hw, db2, Verify, Ok, v6);
      (s1.(db := db3), rc1, rc2, rc3)
  }

  // ----- a commit that creates an interface with addresses

  /** The address of a block parses and so does its netmask, if it has one. */
  predicate WellTyped(c: Codec, b: B.Block) {
    && B.Keyed(b)
    && c.parse(b.ip).Some?
    && (b.subnet.Mask? ==> c.parse(b.subnet.text).Some? && c.parse(b.subnet.text).value.V4?)
  }

  /** The binding a block asks for. */
  function Wanted(c: Codec, b: B.Block): Obj
    requires WellTyped(c, b)
  {
    L3(b.itf, RoutePrefix(c.parse(b.ip).value, R.LengthOf(c, b.subnet, 0)))
  }

  predicate AddressesOf(c: Codec, name: string, bs: seq<B.Block>) {
    forall i :: 0 <= i < |bs| ==> WellTyped(c, bs[i]) && bs[i].add && bs[i].itf == name
  }

  predicate Holds(c: Codec, db: Db, o: Obj)
    requires o.L3?
  {
    o in Get(db, KeyOf(c, o))
  }

  /** VPP takes the last binding written, if there is any. */
  predicate TakesLast(c: Codec, hw: Hw, db: Db, bs: seq<B.Block>)
    requires forall i :: 0 <= i < |bs| ==> WellTyped(c, bs[i])
  {
    bs != [] ==> var o := Wanted(c, bs[|bs| - 1]); hw(db, KeyOf(c, o), o)
  }

  lemma {:induction false} PlusHolds(c: Codec, db: Db, objs: set<Obj>, o: Obj)
    requires o in objs && o.L3?
    ensures Holds(c, Plus(c, db, objs), o)
  {
    assert o in AtKey(c, objs, KeyOf(c, o));
  }

  lemma {:induction false} PlusKeeps(c: Codec, db: Db, objs: set<Obj>, k: string, o: Obj)
    requires o in Get(db, k)
    ensures o in Get(Plus(c, db, objs), k)
  {
  }

  lemma {:induction false} OwnIsWanted(c: Codec, bs: seq<B.Block>, i: nat)
    requires i < |bs| && WellTyped(c, bs[i])
    ensures B.Own(c, bs, i) in B.Touched(c, bs)
    ensures BindingOf(c, B.Own(c, bs, i)) == Wanted(c, bs[i])
  {
    R.LengthAt(c, bs, i);
  }

  lemma {:induction false} BatchCode(c: Codec, hw: Hw, db: Db, name: string, bs: seq<B.Block>)
    requires AddressesOf(c, name, bs) && Finds(db, name)
    ensures var r := A.Interpret(c, hw, db, Verify, Ok, B.Stream(bs));
      r.1 == Ok <==> TakesLast(c, hw, r.0, bs)
  {
    L.CreatedBatchCode(c, hw, db, Verify, bs);
    if bs != [] {
      OwnIsWanted(c, bs, |bs| - 1);
    }
  }

  lemma {:induction false} BatchHolds(c: Codec, db: Db, name: string, bs: seq<B.Block>)
    requires AddressesOf(c, name, bs) && Finds(db, name)
    ensures var db' := Plus(c, db, Bindings(c, db, B.Touched(c, bs), true));
      forall i :: 0 <= i < |bs| ==> Holds(c, db', Wanted(c, bs[i]))
  {
    var objs := Bindings(c, db, B.Touched(c, bs), true);
    forall i | 0 <= i < |bs| ensures Holds(c, Plus(c, db, objs), Wanted(c, bs[i])) {
      OwnIsWanted(c, bs, i);
      assert B.Own(c, bs, i).add && BindingOf(c, B.Own(c, bs, i)) in objs;
      PlusHolds(c, db, objs, Wanted(c, bs[i]));
    }
  }

  lemma {:induction false} BatchBinds(c: Codec, hw: Hw, db: Db, name: string, bs: seq<B.Block>)
    requires Sound(c) && AddressesOf(c, name, bs) && Finds(db, name)
    ensures var r := A.Interpret(c, hw, db, Verify, Ok, B.Stream(bs));
      && (r.1 == Ok <==> TakesLast(c, hw, r.0, bs))
      && r.0 == Plus(c, db, Bindings(c, db, B.Touched(c, bs), true))
      && Finds(r.0, name)
      && (forall i :: 0 <= i < |bs| ==> Holds(c, r.0, Wanted(c, bs[i])))
  {
    B.CreatedBatch(c, hw, db, Verify, bs);
    BatchCode(c, hw, db, name, bs);
    BatchHolds(c, db, name, bs);
    PlusFinds(c, db, Bindings(c, db, B.Touched(c, bs), true), name);
  }

  /** The records of a created interface. */
  predicate CreatesInterface(ifs: seq<I.Change>, name: string) {
    && (forall i :: 0 <= i < |ifs| ==> ifs[i].oper == Created)
    && I.CreatesName(ifs) && I.CreatesEthernet(ifs) && I.LastName(ifs) == Some(name) && name != ""
  }

  /** The store after the creation: the interface, then each family's bindings. */
  lemma {:induction false} CreatingCommit(
    c: Codec, hw: Hw, s: Store, name: string,
    ifs: seq<I.Change>, v4: seq<B.Block>, v6: seq<B.Block>)
    requires Sound(c) && CreatesInterface(ifs, name)
    requires AddressesOf(c, name, v4) && AddressesOf(c, name, v6)
    ensures var (s', rc1, rc2, rc3) := CommitAll(c, hw, s, ifs, B.Stream(v4), B.Stream(v6));
      var db1 := Write(s.db, name, Itf(name));
      var db2 := A.Interpret(c, hw, db1, Verify, Ok, B.Stream(v4)).0;
      && Finds(db1, name) && Finds(db2, name)
      && db2 == Plus(c, db1, Bindings(c, db1, B.Touched(c, v4), true))
      && s'.db == Plus(c, db2, Bindings(c, db2, B.Touched(c, v6), true))
      && name in s'.attrs && s'.attrs[name] == Attrs(Ethernet, I.OrElse(I.LastUp(ifs), false))
      && (rc1 == Ok <==> hw(db1, name, Itf(name)))
      && (rc2 == Ok <==> TakesLast(c, hw, db2, v4))
      && (rc3 == Ok <==> TakesLast(c, hw, s'.db, v6))
      && (forall i :: 0 <= i < |v4| ==> Holds(c, db2, Wanted(c, v4[i])))
      && (forall i :: 0 <= i < |v6| ==> Holds(c, s'.db, Wanted(c, v6[i])))
  {
    I.CommitCreatesLastName(hw, s, ifs);
    var db1 := Write(s.db, name, Itf(name));
    WriteFinds(s.db, name, Itf(name), name);
    BatchBinds(c, hw, db1, name, v4);
    BatchBinds(c, hw, A.Interpret(c, hw, db1, Verify, Ok, B.Stream(v4)).0, name, v6);
  }

  /** A commit that creates one interface with any number of IPv4 and IPv6 addresses ends
      with the interface and every binding asked for in the store; each callback's code
      tells whether VPP took the last thing it wrote. */
  lemma {:induction false} CommitInterfaceWithAddresses(
    c: Codec, hw: Hw, s: Store, name: string,
    ifs: seq<I.Change>, v4: seq<B.Block>, v6: seq<B.Block>)
    requires Sound(c) && CreatesInterface(ifs, name)
    requires AddressesOf(c, name, v4) && AddressesOf(c, name, v6)
    ensures var (s', rc1, rc2, rc3) := CommitAll(c, hw, s, ifs, B.Stream(v4), B.Stream(v6));
      var db1 := Write(s.db, name, Itf(name));
      var db2 := A.Interpret(c, hw, db1, Verify, Ok, B.Stream(v4)).0;
      && (rc1 == Ok <==> hw(db1, name, Itf(name)))
      && (rc2 == Ok <==> TakesLast(c, hw, db2, v4))
      && (rc3 == Ok <==> TakesLast(c, hw, s'.db, v6))
      && Itf(name) in Get(s'.db, name)
      && name in s'.attrs && s'.attrs[name] == Attrs(Ethernet, I.OrElse(I.LastUp(ifs), false))
      && (forall i :: 0 <= i < |v4| ==> Holds(c, s'.db, Wanted(c, v4[i])))
      && (forall i :: 0 <= i < |v6| ==> Holds(c, s'.db, Wanted(c, v6[i])))
  {
    CreatingCommit(c, hw, s, name, ifs, v4, v6);
    var db1 := Write(s.db, name, Itf(name));
    var db2 := A.Interpret(c, hw, db1, Verify, Ok, B.Stream(v4)).0;
    var objs4, objs6 := Bindings(c, db1, B.Touched(c, v4), true), Bindings(c, db2, B.Touched(c, v6), true);
    PlusKeeps(c, db1, objs4, name, Itf(name));
    PlusKeeps(c, db2, objs6, name, Itf(name));
    forall i | 0 <= i < |v4| ensures Holds(c, Plus(c, db2, objs6), Wanted(c, v4[i])) {
      PlusKeeps(c, db2, objs6, KeyOf(c, Wanted(c, v4[i])), Wanted(c, v4[i]));
    }
  }

  // ----- a commit that deletes an interface with addresses

  /** The keys some calls are for, whether or not their interfaces exist. */
  function CallKeys(c: Codec, calls: set<A.Call>): set<string> {
    set call | call in calls && Parses(c, call) :: CallKey(c, call)
  }

  predicate DeletionsOf(name: string, bs: seq<B.Block>) {
    forall i :: 0 <= i < |bs| ==> B.Keyed(bs[i]) && !bs[i].add && bs[i].itf == name
  }

  /** Removals that are all on one interface. */
  predicate RemovalsOn(calls: set<A.Call>, name: string) {
    forall call :: call in calls ==> !call.add && call.itf == name
  }

  lemma {:induction false} TouchedOn(c: Codec, bs: seq<B.Block>, name: string)
    requires DeletionsOf(name, bs)
    ensures RemovalsOn(B.Touched(c, bs), name) && RemovalsOn(L.AllButLast(c, bs), name)
    ensures L.AllButLast(c, bs) <= B.Touched(c, bs)
  {
  }

  /** Where every key is owned, removing takes away the keys, found interface or not. */
  lemma {:induction false} OwnedRemoval(c: Codec, db: Db, calls: set<A.Call>, name: string)
    requires RemovalsOn(calls, name) && Owned(c, db, calls, name)
    ensures Minus(c, db, Bindings(c, db, calls, false)) == db - CallKeys(c, calls)
    ensures Traceable(c, db, calls)
  {
    var gone := Keys(c, Bindings(c, db, calls, false));
    forall k | k in db && k in CallKeys(c, calls) ensures k in gone {
      var call :| call in calls && Parses(c, call) && CallKey(c, call) == k;
      assert Finds(db, name);
      assert BindingOf(c, call) in Bindings(c, db, calls, false);
    }
    forall k | k in gone ensures k in CallKeys(c, calls) {
      var o :| o in Bindings(c, db, calls, false) && KeyOf(c, o) == k;
    }
  }

  lemma {:induction false} OwnedLess(
    c: Codec, db: Db, ks: set<string>, some: set<A.Call>, all: set<A.Call>, name: string)
    requires some <= all && Owned(c, db, all, name)
    ensures Owned(c, db - ks, some, name)
  {
  }

  /** Deleting addresses of one interface takes their keys away; the code is OK exactly
      when the interface is still there for the last call. */
  lemma {:induction false} DeletedKeys(c: Codec, hw: Hw, db: Db, name: string, bs: seq<B.Block>)
    requires Sound(c) && DeletionsOf(name, bs) && Owned(c, db, B.Touched(c, bs), name)
    ensures var r := A.Interpret(c, hw, db, Verify, Ok, B.Stream(bs));
      && r.0 == db - CallKeys(c, B.Touched(c, bs))
      && (r.1 == Ok <==> LastFinds(c, db, name, bs))
  {
    TouchedOn(c, bs, name);
    OwnedRemoval(c, db, B.Touched(c, bs), name);
    OwnedLess(c, db, {}, L.AllButLast(c, bs), B.Touched(c, bs), name);
    assert db - {} == db;
    OwnedRemoval(c, db, L.AllButLast(c, bs), name);
    B.DeletedBatch(c, hw, db, Verify, bs);
    L.DeletedBatchCode(c, hw, db, Verify, bs);
  }

  /** The last block's address parses and the calls before the last leave the interface. */
  predicate LastFinds(c: Codec, db: Db, name: string, bs: seq<B.Block>) {
    bs != [] ==>
      c.parse(bs[|bs| - 1].ip).Some? && Finds(db - CallKeys(c, L.AllButLast(c, bs)), name)
  }

  predicate DeletesInterface(ifs: seq<I.Change>, name: string) {
    && (forall i :: 0 <= i < |ifs| ==> ifs[i].oper == Deleted)
    && I.DeletesName(ifs) && I.LastName(ifs) == Some(name)
  }

  lemma {:induction false} DeletesModifyNothing(ifs: seq<I.Change>)
    requires forall i :: 0 <= i < |ifs| ==> ifs[i].oper == Deleted
    ensures I.LastModified(ifs) == None
  {
    if ifs != [] {
      DeletesModifyNothing(ifs[1..]);
    }
  }

  /** A commit that deletes an interface with its addresses: the interface's own key goes
      first, so the address callbacks run on an interface kept alive by its bindings only.
      The three sets of keys go nevertheless, all of them and nothing else; but a callback
      that takes the last referent before its last call reports an error. */
  lemma {:induction false} CommitDeletesInterface(
    c: Codec, hw: Hw, s: Store, name: string,
    ifs: seq<I.Change>, v4: seq<B.Block>, v6: seq<B.Block>)
    requires Sound(c) && DeletesInterface(ifs, name) && DeletionsOf(name, v4) && DeletionsOf(name, v6)
    requires Owned(c, Remove(s.db, name), B.Touched(c, v4) + B.Touched(c, v6), name)
    ensures var (s', rc1, rc2, rc3) := CommitAll(c, hw, s, ifs, B.Stream(v4), B.Stream(v6));
      var db1 := Remove(s.db, name);
      var db2 := db1 - CallKeys(c, B.Touched(c, v4));
      && s'.db == db2 - CallKeys(c, B.Touched(c, v6))
      && rc1 == Ok
      && (rc2 == Ok <==> LastFinds(c, db1, name, v4))
      && (rc3 == Ok <==> LastFinds(c, db2, name, v6))
  {
    var all := B.Touched(c, v4) + B.Touched(c, v6);
    var db1 := Remove(s.db, name);
    DeletesModifyNothing(ifs);
    I.CommitRemovesLastName(hw, s, ifs);
    OwnedLess(c, db1, {}, B.Touched(c, v4), all, name);
    assert db1 - {} == db1;
    DeletedKeys(c, hw, db1, name, v4);
    OwnedLess(c, db1, CallKeys(c, B.Touched(c, v4)), B.Touched(c, v6), all, name);
    DeletedKeys(c, hw, db1 - CallKeys(c, B.Touched(c, v4)), name, v6);
  }

  // ----- creating and then deleting

  /** A store that holds another and, under further keys, only referents of an interface. */
  predicate Extends(db: Db, base: Db, keys: set<string>, name: string) {
    && keys !! base.Keys
    && db.Keys == base.Keys + keys
    && (forall k :: k in base ==> db[k] == base[k])
    && (forall k :: k in keys ==> Mentions(db[k], name))
  }

  /** The interface goes with the last of the further keys, unless the base keeps it. */
  lemma {:induction false} ExtendedFinds(db: Db, base: Db, keys: set<string>, name: string, gone: set<string>)
    requires Extends(db, base, keys, name) && gone !! base.Keys
    ensures Finds(db - gone, name) <==> Finds(base, name) || !(keys <= gone)
  {
    var rest := db - gone;
    if Finds(rest, name) && keys <= gone {
      var k :| k in rest && Mentions(rest[k], name);
      assert k in base && base[k] == rest[k];
    }
    if Finds(base, name) {
      var k :| k in base && Mentions(base[k], name);
      assert k in rest && rest[k] == base[k];
    }
    if !(keys <= gone) {
      var k :| k in keys && k !in gone;
      assert k in rest && Mentions(rest[k], name);
    }
  }

  /** The same with some bindings added. */
  lemma {:induction false} PlusExtends(
    c: Codec, db: Db, base: Db, keys: set<string>, name: string, objs: set<Obj>)
    requires Extends(db, base, keys, name) && Keys(c, objs) !! base.Keys
    requires forall o :: o in objs ==> o.L3? && o.itf == name
    ensures Extends(Plus(c, db, objs), base, keys + Keys(c, objs), name)
  {
    var db' := Plus(c, db, objs);
    forall k | k in base ensures db'[k] == base[k] {
      assert AtKey(c, objs, k) == {};
    }
    forall k | k in keys + Keys(c, objs) ensures Mentions(db'[k], name) {
      if k in keys {
        var o :| o in db[k] && Refers(o, name);
        assert o in db'[k];
      } else {
        var o :| o in objs && o.L3? && KeyOf(c, o) == k;
        assert o in AtKey(c, objs, k) && o in db'[k] && Refers(o, name);
      }
    }
  }

  /** The bindings of additions on one existing interface. */
  lemma {:induction false} AddedKeys(c: Codec, db: Db, name: string, bs: seq<B.Block>)
    requires AddressesOf(c, name, bs) && Finds(db, name)
    ensures var objs := Bindings(c, db, B.Touched(c, bs), true);
      && Keys(c, objs) == CallKeys(c, B.Touched(c, bs))
      && forall o :: o in objs ==> o.L3? && o.itf == name
  {
    var calls := B.Touched(c, bs);
    var objs := Bindings(c, db, calls, true);
    forall call | call in calls ensures call.add && call.itf == name && Parses(c, call) {
      var i :| 0 <= i < |bs| && (call == B.Early(c, bs, i) || call == B.Own(c, bs, i));
    }
    forall k | k in CallKeys(c, calls) ensures k in Keys(c, objs) {
      var call :| call in calls && Parses(c, call) && CallKey(c, call) == k;
      assert BindingOf(c, call) in objs;
    }
    forall k | k in Keys(c, objs) ensures k in CallKeys(c, calls) {
      var o :| o in objs && o.L3? && KeyOf(c, o) == k;
      var call :| call in calls && Parses(c, call) && BindingOf(c, call) == o;
      assert CallKey(c, call) == k;
    }
  }

  /** The keys of an interface's addresses, in both families. */
  function AddressKeys(c: Codec, v4: seq<B.Block>, v6: seq<B.Block>): set<string> {
    CallKeys(c, B.Touched(c, v4)) + CallKeys(c, B.Touched(c, v6))
  }

  lemma {:induction false} BindingKeysOnly(c: Codec, calls: set<A.Call>, name: string)
    requires !IsL3Key(name)
    ensures name !in CallKeys(c, calls)
  {
    if name in CallKeys(c, calls) {
      var call :| call in calls && Parses(c, call) && CallKey(c, call) == name;
      var o := BindingOf(c, call);
      KeysDisjoint(c, "", o.itf, o.pfx, 0);
    }
  }

  lemma {:induction false} WriteRemoved(db: Db, k: string, o: Obj)
    requires k !in db
    ensures Remove(Write(db, k, o), k) == db
  {
  }

  lemma {:induction false} WithoutInterface(
    c: Codec, base: Db, name: string, o: Obj, objs4: set<Obj>, objs6: set<Obj>)
    requires name !in base && name !in Keys(c, objs4) && name !in Keys(c, objs6)
    ensures Remove(Plus(c, Plus(c, Write(base, name, o), objs4), objs6), name) == Plus(c, Plus(c, base, objs4), objs6)
  {
    var db1 := Write(base, name, o);
    var db2 := Plus(c, db1, objs4);
    WriteRemoved(base, name, o);
    PlusRemove(c, db1, name, objs4);
    assert Remove(db2, name) == Plus(c, base, objs4);
    PlusRemove(c, db2, name, objs6);
  }

  lemma {:induction false} BoundExtends(
    c: Codec, base: Db, name: string, objs4: set<Obj>, objs6: set<Obj>)
    requires Keys(c, objs4) !! base.Keys && Keys(c, objs6) !! base.Keys
    requires forall o :: o in objs4 + objs6 ==> o.L3? && o.itf == name
    ensures Extends(Plus(c, Plus(c, base, objs4), objs6), base, Keys(c, objs4) + Keys(c, objs6), name)
  {
    PlusExtends(c, base, base, {}, name, objs4);
    assert {} + Keys(c, objs4) == Keys(c, objs4);
    PlusExtends(c, Plus(c, base, objs4), base, Keys(c, objs4), name, objs6);
  }

  /** What a creating commit adds under the keys of the addresses is all of the interface's. */
  lemma {:induction false} CreatedExtends(
    c: Codec, hw: Hw, s: Store, name: string,
    ifs: seq<I.Change>, v4: seq<B.Block>, v6: seq<B.Block>)
    requires Sound(c) && CreatesInterface(ifs, name)
    requires AddressesOf(c, name, v4) && AddressesOf(c, name, v6)
    requires name !in s.db && !IsL3Key(name) && AddressKeys(c, v4, v6) !! s.db.Keys
    ensures var s' := CommitAll(c, hw, s, ifs, B.Stream(v4), B.Stream(v6)).0;
      Extends(Remove(s'.db, name), s.db, AddressKeys(c, v4, v6), name)
  {
    CreatingCommit(c, hw, s, name, ifs, v4, v6);
    var db1 := Write(s.db, name, Itf(name));
    var db2 := A.Interpret(c, hw, db1, Verify, Ok, B.Stream(v4)).0;
    AddedKeys(c, db1, name, v4);
    AddedKeys(c, db2, name, v6);
    BindingKeysOnly(c, B.Touched(c, v4), name);
    BindingKeysOnly(c, B.Touched(c, v6), name);
    var objs4, objs6 := Bindings(c, db1, B.Touched(c, v4), true), Bindings(c, db2, B.Touched(c, v6), true);
    WithoutInterface(c, s.db, name, Itf(name), objs4, objs6);
    BoundExtends(c, s.db, name, objs4, objs6);
  }

  lemma {:induction false} UndoneKeys(c: Codec, bs: seq<B.Block>)
    requires B.OnlyCreates(bs)
    ensures CallKeys(c, B.Touched(c, L.Undo(bs))) == CallKeys(c, B.Touched(c, bs))
  {
    var calls, calls' := B.Touched(c, bs), B.Touched(c, L.Undo(bs));
    forall k | k in CallKeys(c, calls) ensures k in CallKeys(c, calls') {
      var call :| call in calls && Parses(c, call) && CallKey(c, call) == k;
      L.TouchedUndone(c, bs, call);
      assert CallKey(c, call.(add := false)) == k;
    }
    forall k | k in CallKeys(c, calls') ensures k in CallKeys(c, calls) {
      var call :| call in calls' && Parses(c, call) && CallKey(c, call) == k;
      L.UndoneTouched(c, bs, call);
      assert CallKey(c, call.(add := true)) == k;
    }
  }

  lemma {:induction false} UndoneFront(c: Codec, bs: seq<B.Block>)
    requires B.OnlyCreates(bs)
    ensures CallKeys(c, L.AllButLast(c, L.Undo(bs))) == CallKeys(c, L.AllButLast(c, bs))
  {
    var calls, calls' := L.AllButLast(c, bs), L.AllButLast(c, L.Undo(bs));
    forall i | 0 <= i < |bs|
      ensures B.Early(c, L.Undo(bs), i) == B.Early(c, bs, i).(add := false)
      ensures B.Own(c, L.Undo(bs), i) == B.Own(c, bs, i).(add := false)
    {
      L.UndoCalls(c, bs, i);
    }
    forall k | k in CallKeys(c, calls) ensures k in CallKeys(c, calls') {
      var call :| call in calls && Parses(c, call) && CallKey(c, call) == k;
      assert call.(add := false) in calls' && CallKey(c, call.(add := false)) == k;
    }
    forall k | k in CallKeys(c, calls') ensures k in CallKeys(c, calls) {
      var call :| call in calls' && Parses(c, call) && CallKey(c, call) == k;
      assert call.(add := true) in calls && CallKey(c, call.(add := true)) == k;
    }
  }

  /** Something keeps the interface alive until the last call of a deletion. */
  predicate SomethingLeft(c: Codec, base: Db, name: string, keys: set<string>, bs: seq<B.Block>) {
    bs != [] ==> Finds(base, name) || !(keys <= CallKeys(c, L.AllButLast(c, bs)))
  }

  lemma {:induction false} UndoneLastFinds(
    c: Codec, db: Db, base: Db, keys: set<string>, name: string, bs: seq<B.Block>)
    requires AddressesOf(c, name, bs) && Extends(db, base, keys, name)
    requires CallKeys(c, B.Touched(c, bs)) !! base.Keys
    ensures LastFinds(c, db, name, L.Undo(bs)) <==> SomethingLeft(c, base, name, keys, bs)
  {
    UndoneFront(c, bs);
    FrontKeys(c, bs);
    ExtendedFinds(db, base, keys, name, CallKeys(c, L.AllButLast(c, bs)));
  }

  lemma {:induction false} FrontKeys(c: Codec, bs: seq<B.Block>)
    ensures CallKeys(c, L.AllButLast(c, bs)) <= CallKeys(c, B.Touched(c, bs))
  {
    assert L.AllButLast(c, bs) <= B.Touched(c, bs);
  }

  lemma {:induction false} ExtendedIsOwned(
    c: Codec, db: Db, base: Db, keys: set<string>, name: string, calls: set<A.Call>)
    requires Extends(db, base, keys, name) && CallKeys(c, calls) !! base.Keys
    ensures Owned(c, db, calls, name)
  {
    forall call | call in calls && Parses(c, call) ensures CallKey(c, call) !in base {
      assert CallKey(c, call) in CallKeys(c, calls);
    }
  }

  lemma {:induction false} WithoutExtends(db: Db, base: Db, keys: set<string>, name: string, gone: set<string>)
    requires Extends(db, base, keys, name) && gone !! base.Keys
    ensures Extends(db - gone, base, keys - gone, name)
    ensures keys <= gone ==> db - gone == base
  {
  }

  /** Deleting an interface with its addresses, right after a commit that created them,
      gives the store back; the codes are OK but for an address callback whose calls take
      the last referent of the interface before the last of them. */
  lemma {:induction false} DeletionCommitInverts(
    c: Codec, hw: Hw, s: Store, name: string,
    ifs: seq<I.Change>, ifs': seq<I.Change>, v4: seq<B.Block>, v6: seq<B.Block>)
    requires Sound(c) && CreatesInterface(ifs, name) && DeletesInterface(ifs', name)
    requires AddressesOf(c, name, v4) && AddressesOf(c, name, v6)
    requires name !in s.db && !IsL3Key(name) && AddressKeys(c, v4, v6) !! s.db.Keys
    ensures
      var s1 := CommitAll(c, hw, s, ifs, B.Stream(v4), B.Stream(v6)).0;
      var (s2, rc1, rc2, rc3) := CommitAll(c, hw, s1, ifs', B.Stream(L.Undo(v4)), B.Stream(L.Undo(v6)));
      var keys := AddressKeys(c, v4, v6);
      && s2.db == s.db
      && rc1 == Ok
      && (rc2 == Ok <==> SomethingLeft(c, s.db, name, keys, v4))
      && (rc3 == Ok <==> SomethingLeft(c, s.db, name, keys - CallKeys(c, B.Touched(c, v4)), v6))
  {
    var s1 := CommitAll(c, hw, s, ifs, B.Stream(v4), B.Stream(v6)).0;
    CreatedExtends(c, hw, s, name, ifs, v4, v6);
    UndoneCommit(c, hw, s1, s.db, name, ifs', v4, v6);
  }

  lemma {:induction false} UndoneCommit(
    c: Codec, hw: Hw, s: Store, base: Db, name: string,
    ifs: seq<I.Change>, v4: seq<B.Block>, v6: seq<B.Block>)
    requires Sound(c) && DeletesInterface(ifs, name)
    requires AddressesOf(c, name, v4) && AddressesOf(c, name, v6)
    requires Extends(Remove(s.db, name), base, AddressKeys(c, v4, v6), name)
    ensures
      var (s', rc1, rc2, rc3) := CommitAll(c, hw, s, ifs, B.Stream(L.Undo(v4)), B.Stream(L.Undo(v6)));
      var keys := AddressKeys(c, v4, v6);
      && s'.db == base
      && rc1 == Ok
      && (rc2 == Ok <==> SomethingLeft(c, base, name, keys, v4))
      && (rc3 == Ok <==> SomethingLeft(c, base, name, keys - CallKeys(c, B.Touched(c, v4)), v6))
  {
    var db1, keys := Remove(s.db, name), AddressKeys(c, v4, v6);
    var keys4, keys6 := CallKeys(c, B.Touched(c, v4)), CallKeys(c, B.Touched(c, v6));
    UndoneKeys(c, v4);
    UndoneKeys(c, v6);
    UndoneOwned(c, db1, base, keys, name, v4, v6);
    CommitDeletesInterface(c, hw, s, name, ifs, L.Undo(v4), L.Undo(v6));
    UndoneLastFinds(c, db1, base, keys, name, v4);
    WithoutExtends(db1, base, keys, name, keys4);
    UndoneLastFinds(c, db1 - keys4, base, keys - keys4, name, v6);
    WithoutExtends(db1 - keys4, base, keys - keys4, name, keys6);
  }

  lemma {:induction false} UndoneOwned(
    c: Codec, db: Db, base: Db, keys: set<string>, name: string, v4: seq<B.Block>, v6: seq<B.Block>)
    requires AddressesOf(c, name, v4) && AddressesOf(c, name, v6)
    requires Extends(db, base, keys, name) && AddressKeys(c, v4, v6) !! base.Keys
    ensures Owned(c, db, B.Touched(c, L.Undo(v4)) + B.Touched(c, L.Undo(v6)), name)
  {
    var calls4, calls6 := B.Touched(c, L.Undo(v4)), B.Touched(c, L.Undo(v6));
    UndoneKeys(c, v4);
    UndoneKeys(c, v6);
    ExtendedIsOwned(c, db, base, keys, name, calls4);
    ExtendedIsOwned(c, db, base, keys, name, calls6);
  }

  /** No two blocks are for the same address. */
  predicate DistinctAddresses(c: Codec, bs: seq<B.Block>) {
    forall i, j :: 0 <= i < j < |bs| ==> c.parse(bs[i].ip) != c.parse(bs[j].ip)
  }

  lemma {:induction false} AllAndLast(c: Codec, bs: seq<B.Block>)
    requires bs != []
    ensures B.Touched(c, bs) == L.AllButLast(c, bs) + {B.Own(c, bs, |bs| - 1)}
  {
  }

  /** With distinct addresses, a family that is all that keeps its interface alive is gone
      before the last call exactly when the last block repeats the length of the block
      before it, as two /24 addresses do (or when a single one has length 0). */
  lemma {:induction false} RepeatedLength(c: Codec, bs: seq<B.Block>, name: string)
    requires Sound(c) && bs != [] && AddressesOf(c, name, bs) && DistinctAddresses(c, bs)
    ensures CallKeys(c, B.Touched(c, bs)) <= CallKeys(c, L.AllButLast(c, bs))
      <==> B.LenAt(c, bs, |bs|) == B.LenAt(c, bs, |bs| - 1)
  {
    var n := |bs| - 1;
    var front, last := L.AllButLast(c, bs), B.Own(c, bs, n);
    AllAndLast(c, bs);
    if CallKey(c, last) in CallKeys(c, front) {
      var call :| call in front && Parses(c, call) && CallKey(c, call) == CallKey(c, last);
      SameKey(c, call, last);
      var i :| 0 <= i < |bs| && (call == B.Early(c, bs, i) || (i < n && call == B.Own(c, bs, i)));
      assert c.parse(bs[i].ip) == c.parse(bs[n].ip);
      assert i == n && call == B.Early(c, bs, n);
    }
    if B.LenAt(c, bs, |bs|) == B.LenAt(c, bs, n) {
      assert last == B.Early(c, bs, n) && last in front;
    }
  }

  lemma {:induction false} OneFamilyLeft(c: Codec, base: Db, name: string, bs: seq<B.Block>)
    requires Sound(c) && AddressesOf(c, name, bs) && DistinctAddresses(c, bs)
    ensures SomethingLeft(c, base, name, CallKeys(c, B.Touched(c, bs)), bs)
      <==> (bs != [] ==> Finds(base, name) || B.LenAt(c, bs, |bs|) != B.LenAt(c, bs, |bs| - 1))
  {
    if bs != [] {
      RepeatedLength(c, bs, name);
    }
  }

  lemma {:induction false} OneFamilyKeys(c: Codec, bs: seq<B.Block>)
    ensures AddressKeys(c, bs, []) == CallKeys(c, B.Touched(c, bs)) == AddressKeys(c, [], bs)
    ensures AddressKeys(c, [], bs) - CallKeys(c, B.Touched(c, [])) == CallKeys(c, B.Touched(c, bs))
    ensures L.Undo([]) == []
  {
    assert CallKeys(c, B.Touched(c, [])) == {};
  }

  /** So when an interface is created with distinct addresses of one family and then deleted
      with them, the code of that family's callback is OK if and only if something else
      keeps the interface alive or the last length differs from the one before it (0 for
      the first): two /24 addresses make the deletion fail, though everything is gone. */
  lemma {:induction false} OneFamilyCode(
    c: Codec, hw: Hw, s: Store, name: string, ifs: seq<I.Change>, ifs': seq<I.Change>, bs: seq<B.Block>)
    requires Sound(c) && CreatesInterface(ifs, name) && DeletesInterface(ifs', name)
    requires AddressesOf(c, name, bs) && DistinctAddresses(c, bs)
    requires name !in s.db && !IsL3Key(name) && CallKeys(c, B.Touched(c, bs)) !! s.db.Keys
    ensures
      var fine := bs != [] ==> Finds(s.db, name) || B.LenAt(c, bs, |bs|) != B.LenAt(c, bs, |bs| - 1);
      var s4 := CommitAll(c, hw, s, ifs, B.Stream(bs), []).0;
      var s6 := CommitAll(c, hw, s, ifs, [], B.Stream(bs)).0;
      && (CommitAll(c, hw, s4, ifs', B.Stream(L.Undo(bs)), []).2 == Ok <==> fine)
      && (CommitAll(c, hw, s6, ifs', [], B.Stream(L.Undo(bs))).3 == Ok <==> fine)
  {
    OneFamilyKeys(c, bs);
    OneFamilyLeft(c, s.db, name, bs);
    DeletionCommitInverts(c, hw, s, name, ifs, ifs', bs, []);
    DeletionCommitInverts(c, hw, s, name, ifs, ifs', [], bs);
  }
}
