/** Whole runs in which interface, address and NAT batches share one store. */
module PluginRuns {
  import opened Text
  import opened SysUtil
  import opened Sysrepo
  import opened ObjectStore
  import opened AddressEffects
  import A = AddressChanges
  import B = AddressBatches
  import O = AddressOrder
  import R = AddressReadings
  import I = InterfaceChanges
  import C = InterfaceCommits
  import N = NatChanges

  datatype System = System(store: Store, table: N.Table)

  /** The plugin has populated VOM from VPP and not yet seen a batch. */
  ghost predicate Booted(sys: System) {
    && sys.table == map[]
    && (forall k, o :: o in Get(sys.store.db, k) ==> FromBoot(k, o))
    && Inhabited(sys.store.db)
  }

  /** No key stands for nothing. */
  predicate Inhabited(db: Db) {
    forall k :: k in db ==> db[k] != {}
  }

  predicate FromBoot(k: string, o: Obj) {
    k == BOOT_KEY && HasCleanName(o)
  }

  predicate HasCleanName(o: Obj) {
    (o.Itf? ==> CleanName(o.name)) && (o.L3? ==> CleanName(o.itf))
  }

  datatype Batch =
    | IetfItf(ifs: seq<I.Change>)
    | OcItf(ifs: seq<I.Change>)
    | Addresses(event: Event, addrs: seq<A.Change>)
    | NatEntries(nats: seq<N.Change>)

  /** A batch through its callback; `None` when the process dies of it. */
  function Process(c: Codec, hw: Hw, sys: System, b: Batch): Option<System> {
    match b
    case IetfItf(ifs) => AfterItf(sys, I.Ietf(hw, sys.store, Verify, true, ifs))
    case OcItf(ifs) => AfterItf(sys, I.Oc(hw, sys.store, Verify, true, ifs))
    case Addresses(event, addrs) =>
      var db := A.Interpret(c, hw, sys.store.db, event, Ok, addrs).0;
      Some(sys.(store := sys.store.(db := db)))
    case NatEntries(nats) =>
      (match N.NatBatch(c, hw, sys.store.db, sys.table, Verify, Ok, nats)
       case Thrown => None
       case Return(_, db, table) => Some(System(sys.store.(db := db), table)))
  }

  function AfterItf(sys: System, r: I.Outcome): Option<System> {
    match r
    case Crashed => None
    case Return(_, s) => Some(sys.(store := s))
  }

  /** A batch ends the process if and only if it is one of OpenConfig records with a deletion
      before anything else that ends the loop, or one of NAT records with a created field
      that is no prefix before any record that is not supported. */
  lemma {:induction false} BatchKills(c: Codec, hw: Hw, sys: System, b: Batch)
    ensures Process(c, hw, sys, b).None?
      <==> match b
           case OcItf(ifs) => I.OcDies(sys.store.db, ifs)
           case NatEntries(nats) => !N.AllPrefixes(c, N.Setters(N.SupportedPart(nats)))
           case _ => false
  {
    match b {
      case IetfItf(ifs) => I.CrashExact(hw, sys.store, ifs);
      case OcItf(ifs) => I.CrashExact(hw, sys.store, ifs);
      case NatEntries(nats) => N.BatchHandlesLastIndex(c, hw, sys.store.db, sys.table, nats);
      case Addresses(_, _) =>
    }
  }

  function ItfAt(db: Db, k: string): set<Obj> {
    set o | o in Get(db, k) && o.Itf?
  }

  function L3At(db: Db, k: string): set<Obj> {
    set o | o in Get(db, k) && o.L3?
  }

  /** Interface names in a batch are neither digits only nor begin with "l3_". */
  predicate CleanBatch(b: Batch) {
    b.IetfItf? || b.OcItf? ==>
      forall i :: 0 <= i < |b.ifs| ==> CleanRecord(b.ifs[i])
  }

  /** An object sits under the boot key or its own, and interface names are clean. */
  ghost predicate RightKey(c: Codec, k: string, o: Obj) {
    && HasCleanName(o)
    && (k == BOOT_KEY ||
        match o
        case Itf(n) => k == n
        case L3(n, p) => k == L3Key(c, n, p)
        case Nat(_, _) => exists i: N.Index :: k == Dec(i))
  }

  ghost predicate WellKeyed(c: Codec, db: Db) {
    forall k, o :: o in Get(db, k) ==> RightKey(c, k, o)
  }

  lemma {:induction false} FoundIsClean(c: Codec, db: Db, name: string)
    requires WellKeyed(c, db) && Finds(db, name)
    ensures CleanName(name)
  {
    var k :| k in db && Mentions(db[k], name);
    var o :| o in db[k] && Refers(o, name);
    assert o in Get(db, k);
    assert RightKey(c, k, o);
  }

  /** Only interfaces live under a clean name. */
  lemma {:induction false} CleanKey(c: Codec, db: Db, name: string)
    requires WellKeyed(c, db) && CleanName(name)
    ensures L3At(db, name) == {} && N.NatAt(db, name) == {}
  {
    forall o | o in Get(db, name) ensures o.Itf? {
      assert RightKey(c, name, o);
      if o.L3? {
        KeysDisjoint(c, name, o.itf, o.pfx, 0);
      }
    }
  }

  // ----- interface batches

  /** The builder and the interface last modified carry clean names. */
  predicate CleanAcc(a: I.Acc) {
    (a.create || a.remove ==> CleanName(a.b.name)) && (a.modified ==> CleanName(a.intf))
  }

  predicate CleanRecord(ch: I.Change) {
    ch.leaf.Name? ==> CleanName(ch.leaf.text)
  }

  lemma {:induction false} RecordIsClean(c: Codec, oc: bool, a: I.Acc, s: Store, ch: I.Change)
    requires WellKeyed(c, s.db) && CleanAcc(a) && CleanRecord(ch)
    ensures var p := if oc then I.OcRecord(a, s, ch) else I.IetfRecord(a, s, ch);
      && (p.Going? ==> CleanAcc(p.a))
      && (!p.Crash? ==> p.s.db == s.db)
  {
    match ch.oper {
      case Modified =>
        if Finds(s.db, ch.key) {
          FoundIsClean(c, s.db, ch.key);
        }
      case _ =>
    }
  }

  lemma {:induction false} LoopIsClean(c: Codec, oc: bool, a: I.Acc, s: Store, chs: seq<I.Change>)
    requires WellKeyed(c, s.db) && CleanAcc(a)
    requires forall i :: 0 <= i < |chs| ==> CleanRecord(chs[i])
    ensures var p := if oc then I.OcLoop(a, s, chs) else I.IetfLoop(a, s, chs);
      && (p.Going? ==> CleanAcc(p.a))
      && (!p.Crash? ==> p.s.db == s.db)
    decreases |chs|
  {
    if chs != [] {
      var p := if oc then I.OcRecord(a, s, chs[0]) else I.IetfRecord(a, s, chs[0]);
      RecordIsClean(c, oc, a, s, chs[0]);
      if p.Going? {
        LoopIsClean(c, oc, p.a, p.s, chs[1..]);
      }
    }
  }

  /** The database after an interface batch: as before, or one clean key written with
      its interface, or one clean key removed. */
  ghost predicate ItfEffect(db: Db, db': Db) {
    || db' == db
    || (exists n :: CleanName(n) && db' == Write(db, n, Itf(n)))
    || (exists n :: CleanName(n) && db' == Remove(db, n))
  }

  lemma {:induction false} ItfBatchEffect(c: Codec, hw: Hw, oc: bool, s: Store, chs: seq<I.Change>)
    requires WellKeyed(c, s.db)
    requires forall i :: 0 <= i < |chs| ==> CleanRecord(chs[i])
    ensures var r := if oc then I.Oc(hw, s, Verify, true, chs) else I.Ietf(hw, s, Verify, true, chs);
      r.Return? ==> ItfEffect(s.db, r.s.db)
  {
    LoopIsClean(c, oc, I.START, s, chs);
    var p := if oc then I.OcLoop(I.START, s, chs) else I.IetfLoop(I.START, s, chs);
    var r := I.Finish(hw, p);
    match p {
      case Going(a, s1) =>
        if a.create {
          assert CleanName(a.b.name);
          assert I.Built(a.b).Some? ==> r.s.db == Write(s.db, a.b.name, Itf(a.b.name));
        } else if a.modified {
          assert CleanName(a.intf) && r.s.db == Write(s.db, a.intf, Itf(a.intf));
        } else if a.remove {
          assert CleanName(a.b.name) && r.s.db == Remove(s.db, a.b.name);
        }
      case _ =>
    }
  }

  lemma {:induction false} WriteInhabits(db: Db, k: string, o: Obj)
    requires Inhabited(db)
    ensures Inhabited(Write(db, k, o)) && Inhabited(Remove(db, k))
  {
    assert o in Write(db, k, o)[k];
  }

  lemma {:induction false} ItfInhabited(db: Db, db': Db)
    requires Inhabited(db) && ItfEffect(db, db')
    ensures Inhabited(db')
  {
    if n :| CleanName(n) && db' == Write(db, n, Itf(n)) {
      WriteInhabits(db, n, Itf(n));
    }
  }

  lemma {:induction false} ItfWritten(c: Codec, db: Db, n: string)
    requires WellKeyed(c, db) && CleanName(n)
    ensures var db' := Write(db, n, Itf(n));
      && WellKeyed(c, db')
      && forall k :: L3At(db', k) == L3At(db, k) && N.NatAt(db', k) == N.NatAt(db, k)
  {
    var db' := Write(db, n, Itf(n));
    forall k, o | o in Get(db', k) ensures RightKey(c, k, o) {
      assert o in Get(db, k) || (k == n && o == Itf(n));
    }
  }

  lemma {:induction false} ItfRemoved(c: Codec, db: Db, n: string)
    requires WellKeyed(c, db) && CleanName(n)
    ensures var db' := Remove(db, n);
      && WellKeyed(c, db')
      && forall k :: L3At(db', k) == L3At(db, k) && N.NatAt(db', k) == N.NatAt(db, k)
  {
    var db' := Remove(db, n);
    CleanKey(c, db, n);
    forall k, o | o in Get(db', k) ensures RightKey(c, k, o) {
      assert o in Get(db, k);
    }
  }

  lemma {:induction false} ItfIsolated(c: Codec, db: Db, db': Db)
    requires WellKeyed(c, db) && ItfEffect(db, db')
    ensures WellKeyed(c, db')
    ensures forall k :: L3At(db', k) == L3At(db, k) && N.NatAt(db', k) == N.NatAt(db, k)
  {
    if n :| CleanName(n) && db' == Write(db, n, Itf(n)) {
      ItfWritten(c, db, n);
    } else if n :| CleanName(n) && db' == Remove(db, n) {
      ItfRemoved(c, db, n);
    }
  }

  // ----- address batches

  lemma {:induction false} CallIsolated(c: Codec, hw: Hw, db: Db, call: A.Call)
    requires WellKeyed(c, db)
    ensures var db' := A.Exec(c, hw, db, call).0;
      && WellKeyed(c, db')
      && forall k :: ItfAt(db', k) == ItfAt(db, k) && N.NatAt(db', k) == N.NatAt(db, k)
  {
    var db' := A.Exec(c, hw, db, call).0;
    if Effective(c, db, call) {
      FoundIsClean(c, db, call.itf);
      var o := BindingOf(c, call);
      var key := KeyOf(c, o);
      forall k, x | x in Get(db', k) ensures RightKey(c, k, x) {
        assert x in Get(db, k) || (k == key && x == o);
      }
      forall x | x in Get(db, key) ensures x.L3? {
        assert RightKey(c, key, x);
        match x {
          case Itf(n) => KeysDisjoint(c, n, o.itf, o.pfx, 0);
          case Nat(_, _) =>
            var i: N.Index :| key == Dec(i);
            KeysDisjoint(c, "", o.itf, o.pfx, i);
          case L3(_, _) =>
        }
      }
    }
  }

  lemma {:induction false} CallsIsolated(c: Codec, hw: Hw, db: Db, rc: Rc, calls: seq<A.Call>)
    requires WellKeyed(c, db)
    ensures var db' := A.ExecAll(c, hw, db, rc, calls).0;
      && WellKeyed(c, db')
      && forall k :: ItfAt(db', k) == ItfAt(db, k) && N.NatAt(db', k) == N.NatAt(db, k)
    decreases |calls|
  {
    if calls != [] {
      CallIsolated(c, hw, db, calls[0]);
      var (db1, rc1) := A.Exec(c, hw, db, calls[0]);
      CallsIsolated(c, hw, db1, rc1, calls[1..]);
    }
  }

  lemma {:induction false} CallsInhabited(c: Codec, hw: Hw, db: Db, rc: Rc, calls: seq<A.Call>)
    requires Inhabited(db)
    ensures Inhabited(A.ExecAll(c, hw, db, rc, calls).0)
    decreases |calls|
  {
    if calls != [] {
      if Effective(c, db, calls[0]) {
        WriteInhabits(db, CallKey(c, calls[0]), BindingOf(c, calls[0]));
      }
      var (db1, rc1) := A.Exec(c, hw, db, calls[0]);
      CallsInhabited(c, hw, db1, rc1, calls[1..]);
    }
  }

  // ----- NAT batches

  ghost predicate NatEffect(db: Db, db': Db) {
    || db' == db
    || (exists i: N.Index, o: Obj :: o.Nat? && db' == Write(db, Dec(i), o))
    || (exists i: N.Index :: db' == Remove(db, Dec(i)))
  }

  lemma {:induction false} NatBatchEffect(c: Codec, hw: Hw, db: Db, table: N.Table, chs: seq<N.Change>)
    ensures var r := N.NatBatch(c, hw, db, table, Verify, Ok, chs);
      r.Return? ==> NatEffect(db, r.db)
  {
    var p := N.Loop(c, N.START, chs);
    if p.Going? && p.a.create {
      var pair := N.Build(c, p.a.f);
      if pair.Some? {
        var o := Nat(pair.value.0, pair.value.1);
        assert o.Nat? && Write(db, Dec(p.a.index), o) == Write(db, Dec(p.a.index), o);
      }
    }
  }

  lemma {:induction false} NatInhabited(db: Db, db': Db)
    requires Inhabited(db) && NatEffect(db, db')
    ensures Inhabited(db')
  {
    if i: N.Index, o: Obj :| o.Nat? && db' == Write(db, Dec(i), o) {
      WriteInhabits(db, Dec(i), o);
    }
  }

  lemma {:induction false} DecKey(c: Codec, i: N.Index, o: Obj)
    requires RightKey(c, Dec(i), o)
    ensures o.Nat?
  {
    var itf, p := if o.L3? then o.itf else "", if o.L3? then o.pfx else RoutePrefix(V6(0), 0);
    KeysDisjoint(c, "", itf, p, i);
  }

  lemma {:induction false} NatIsolated(c: Codec, db: Db, db': Db)
    requires WellKeyed(c, db) && NatEffect(db, db')
    ensures WellKeyed(c, db')
    ensures forall k :: ItfAt(db', k) == ItfAt(db, k) && L3At(db', k) == L3At(db, k)
  {
    if i: N.Index, o: Obj :| o.Nat? && db' == Write(db, Dec(i), o) {
      forall k, x | x in Get(db', k) ensures RightKey(c, k, x) {
        assert x in Get(db, k) || (k == Dec(i) && x == o);
      }
    } else if i: N.Index :| db' == Remove(db, Dec(i)) {
      forall x | x in Get(db, Dec(i)) ensures x.Nat? {
        assert RightKey(c, Dec(i), x);
        DecKey(c, i, x);
      }
      forall k, x | x in Get(db', k) ensures RightKey(c, k, x) {
        assert x in Get(db, k);
      }
    }
  }

  // ----- every run

  /** Each callback leaves the objects of the other kinds as they are. */
  lemma {:induction false} CallbacksIsolated(c: Codec, hw: Hw, sys: System, b: Batch)
    requires WellKeyed(c, sys.store.db) && CleanBatch(b)
    requires Process(c, hw, sys, b).Some?
    ensures var db, db' := sys.store.db, Process(c, hw, sys, b).value.store.db;
      && WellKeyed(c, db')
      && forall k ::
          && (!b.IetfItf? && !b.OcItf? ==> ItfAt(db', k) == ItfAt(db, k))
          && (!b.Addresses? ==> L3At(db', k) == L3At(db, k))
          && (!b.NatEntries? ==> N.NatAt(db', k) == N.NatAt(db, k))
  {
    var db, db' := sys.store.db, Process(c, hw, sys, b).value.store.db;
    match b {
      case IetfItf(ifs) =>
        ItfBatchEffect(c, hw, false, sys.store, ifs);
        ItfIsolated(c, db, db');
      case OcItf(ifs) =>
        ItfBatchEffect(c, hw, true, sys.store, ifs);
        ItfIsolated(c, db, db');
      case Addresses(event, addrs) =>
        CallsIsolated(c, hw, db, Ok, A.Calls(c, A.START, addrs));
      case NatEntries(nats) =>
        NatBatchEffect(c, hw, db, sys.table, nats);
        NatIsolated(c, db, db');
    }
  }

  lemma {:induction false} CallbacksInhabit(c: Codec, hw: Hw, sys: System, b: Batch)
    requires WellKeyed(c, sys.store.db) && Inhabited(sys.store.db) && CleanBatch(b)
    requires Process(c, hw, sys, b).Some?
    ensures Inhabited(Process(c, hw, sys, b).value.store.db)
  {
    var db, db' := sys.store.db, Process(c, hw, sys, b).value.store.db;
    match b {
      case IetfItf(ifs) =>
        ItfBatchEffect(c, hw, false, sys.store, ifs);
        ItfInhabited(db, db');
      case OcItf(ifs) =>
        ItfBatchEffect(c, hw, true, sys.store, ifs);
        ItfInhabited(db, db');
      case Addresses(event, addrs) =>
        CallsInhabited(c, hw, db, Ok, A.Calls(c, A.START, addrs));
      case NatEntries(nats) =>
        NatBatchEffect(c, hw, db, sys.table, nats);
        NatInhabited(db, db');
    }
  }

  /** The states a run passes through, one per batch; VPP may answer each batch anew. */
  ghost predicate IsRun(c: Codec, hws: seq<Hw>, states: seq<System>, batches: seq<Batch>) {
    && |states| == |batches| + 1 && |hws| == |batches|
    && Booted(states[0])
    && (forall i :: 0 <= i < |batches| ==> CleanBatch(batches[i]))
    && (forall i :: 0 <= i < |batches| ==> Process(c, hws[i], states[i], batches[i]) == Some(states[i + 1]))
  }

  /** The NAT batches of a run each create what the mirror can follow. */
  ghost predicate MirrorSafe(c: Codec, hws: seq<Hw>, states: seq<System>, batches: seq<Batch>)
    requires |states| == |batches| + 1 && |hws| == |batches|
  {
    forall i :: 0 <= i < |batches| && batches[i].NatEntries? ==>
      N.KeepsMirror(c, hws[i], states[i].store.db, states[i].table, batches[i].nats)
  }

  lemma {:induction false} RunsWellKeyed(c: Codec, hws: seq<Hw>, states: seq<System>, batches: seq<Batch>, n: nat)
    requires IsRun(c, hws, states, batches) && n <= |batches|
    ensures WellKeyed(c, states[n].store.db) && Inhabited(states[n].store.db)
  {
    if n > 0 {
      RunsWellKeyed(c, hws, states, batches, n - 1);
      assert Process(c, hws[n - 1], states[n - 1], batches[n - 1]) == Some(states[n]);
      CallbacksIsolated(c, hws[n - 1], states[n - 1], batches[n - 1]);
      CallbacksInhabit(c, hws[n - 1], states[n - 1], batches[n - 1]);
    }
  }

  lemma {:induction false} BootIsNoBinding()
    ensures !IsL3Key(BOOT_KEY)
  {
    assert BOOT_KEY[..3][0] == 'b' && "l3_"[0] == 'l';
  }

  /** Under a binding key a well-keyed store holds only what belongs there. */
  lemma {:induction false} WellKeyedIsTidy(c: Codec, db: Db)
    requires WellKeyed(c, db) && Inhabited(db)
    ensures B.Tidy(c, db)
  {
    BootIsNoBinding();
    forall k, o | k in db && IsL3Key(k) && o in db[k] ensures o.L3? && KeyOf(c, o) == k {
      assert o in Get(db, k);
      assert RightKey(c, k, o);
      if o.Nat? {
        var i: N.Index :| k == Dec(i);
        KeysDisjoint(c, "", "", RoutePrefix(V6(0), 0), i);
      }
    }
  }

  /** In every store the plugin can reach, any batch of address changes that adds and
      removes no binding both has its exact net effect: what keeps an interface alive
      while its addresses are deleted never has to be asked for. */
  lemma {:induction false} BatchEffectOnEveryRun(
    c: Codec, hws: seq<Hw>, states: seq<System>, batches: seq<Batch>, n: nat,
    hw: Hw, event: Event, bs: seq<B.Block>)
    requires Sound(c) && IsRun(c, hws, states, batches) && n <= |batches|
    requires B.AllKeyed(bs) && (event == Verify || event == Enabled)
    requires var db := states[n].store.db;
      Bindings(c, db, B.AddCalls(c, bs), true) !! Bindings(c, db, B.RemoveCalls(c, bs), false)
    ensures var db := states[n].store.db;
      && B.Tidy(c, db)
      && (forall calls :: Traceable(c, db, calls))
      && A.Interpret(c, hw, db, event, Ok, B.Stream(bs)).0 == B.Outcome(c, db, bs)
  {
    var db := states[n].store.db;
    RunsWellKeyed(c, hws, states, batches, n);
    WellKeyedIsTidy(c, db);
    forall calls ensures Traceable(c, db, calls) {
      B.TidyIsTraceable(c, db, calls);
    }
    B.BatchEffect(c, hw, db, event, bs);
  }

  /** And every address batch whatsoever, of any records, has the effect that its calls and
      the store before it determine: bindings both added and removed included. */
  lemma {:induction false} AddressesOnEveryRun(
    c: Codec, hws: seq<Hw>, states: seq<System>, batches: seq<Batch>, n: nat)
    requires Sound(c) && IsRun(c, hws, states, batches) && n < |batches|
    requires batches[n].Addresses?
    ensures if batches[n].event == Verify || batches[n].event == Enabled
      then O.Settled(c, states[n].store.db, R.Expected(c, batches[n].addrs, 0), states[n + 1].store.db)
      else states[n + 1] == states[n]
  {
    RunsWellKeyed(c, hws, states, batches, n);
    WellKeyedIsTidy(c, states[n].store.db);
    assert Process(c, hws[n], states[n], batches[n]) == Some(states[n + 1]);
    R.CallsAreExpected(c, batches[n].addrs);
    O.ExactEffect(c, hws[n], states[n].store.db, Ok, A.Calls(c, A.START, batches[n].addrs));
  }

  /** At any point of a run, a commit that deletes an interface with addresses on it takes
      away exactly its key and theirs. */
  lemma {:induction false} DeletionCommitOnEveryRun(
    c: Codec, hws: seq<Hw>, states: seq<System>, batches: seq<Batch>, n: nat,
    hw: Hw, name: string, ifs: seq<I.Change>, v4: seq<B.Block>, v6: seq<B.Block>)
    requires Sound(c) && IsRun(c, hws, states, batches) && n <= |batches|
    requires C.DeletesInterface(ifs, name) && C.DeletionsOf(name, v4) && C.DeletionsOf(name, v6)
    ensures var s := states[n].store;
      C.CommitAll(c, hw, s, ifs, B.Stream(v4), B.Stream(v6)).0.db
      == s.db - ({name} + C.CallKeys(c, B.Touched(c, v4)) + C.CallKeys(c, B.Touched(c, v6)))
  {
    var s := states[n].store;
    RunsWellKeyed(c, hws, states, batches, n);
    WellKeyedIsTidy(c, s.db);
    B.TidyWithout(c, s.db, {name});
    B.TidyIsTraceable(c, Remove(s.db, name), B.Touched(c, v4) + B.Touched(c, v6));
    C.CommitDeletesInterface(c, hw, s, name, ifs, v4, v6);
  }

  lemma {:induction false} StepMirror(c: Codec, hw: Hw, sys: System, b: Batch)
    requires WellKeyed(c, sys.store.db) && CleanBatch(b) && Process(c, hw, sys, b).Some?
    requires N.Mirror(sys.store.db, sys.table)
    ensures var sys' := Process(c, hw, sys, b).value;
      N.Mirror(sys'.store.db, sys'.table)
      <==> b.NatEntries? ==> N.KeepsMirror(c, hw, sys.store.db, sys.table, b.nats)
  {
    CallbacksIsolated(c, hw, sys, b);
    if b.NatEntries? {
      N.MirrorExact(c, hw, sys.store.db, sys.table, Verify, Ok, b.nats);
    } else {
      var sys' := Process(c, hw, sys, b).value;
      assert sys'.table == sys.table;
      forall i: N.Index ensures N.NatAt(sys'.store.db, Dec(i)) == N.EntryFor(sys'.table, i) {
        assert N.NatAt(sys.store.db, Dec(i)) == N.EntryFor(sys.table, i);
      }
    }
  }

  /** On every run of interface, address and NAT batches, in any order, the mapping table
      is faithful to VOM throughout if and only if every NAT creation repeats an entry or
      is fresh and accepted by VPP. */
  lemma {:induction false} MirrorOnEveryRun(c: Codec, hws: seq<Hw>, states: seq<System>, batches: seq<Batch>)
    requires IsRun(c, hws, states, batches)
    ensures (forall n :: 0 <= n <= |batches| ==> N.Mirror(states[n].store.db, states[n].table))
      <==> MirrorSafe(c, hws, states, batches)
  {
    if MirrorSafe(c, hws, states, batches) {
      forall n: nat | n <= |batches| ensures N.Mirror(states[n].store.db, states[n].table) {
        MirrorUpTo(c, hws, states, batches, n);
      }
    } else {
      var i :| 0 <= i < |batches| && batches[i].NatEntries?
        && !N.KeepsMirror(c, hws[i], states[i].store.db, states[i].table, batches[i].nats);
      RunsWellKeyed(c, hws, states, batches, i);
      assert Process(c, hws[i], states[i], batches[i]) == Some(states[i + 1]);
      if N.Mirror(states[i].store.db, states[i].table) {
        StepMirror(c, hws[i], states[i], batches[i]);
        assert !N.Mirror(states[i + 1].store.db, states[i + 1].table);
      }
    }
  }

  lemma {:induction false} MirrorUpTo(c: Codec, hws: seq<Hw>, states: seq<System>, batches: seq<Batch>, n: nat)
    requires IsRun(c, hws, states, batches) && MirrorSafe(c, hws, states, batches) && n <= |batches|
    ensures N.Mirror(states[n].store.db, states[n].table)
  {
    if n > 0 {
      MirrorUpTo(c, hws, states, batches, n - 1);
      RunsWellKeyed(c, hws, states, batches, n - 1);
      assert Process(c, hws[n - 1], states[n - 1], batches[n - 1]) == Some(states[n]);
      StepMirror(c, hws[n - 1], states[n - 1], batches[n - 1]);
    } else {
      BootedMirror(c, states[0]);
    }
  }

  lemma {:induction false} BootedMirror(c: Codec, sys: System)
    requires Booted(sys)
    ensures N.Mirror(sys.store.db, sys.table)
  {
    forall i: N.Index ensures N.NatAt(sys.store.db, Dec(i)) == N.EntryFor(sys.table, i) {
      var k := Dec(i);
      KeysDisjoint(c, "", "", RoutePrefix(V6(0), 0), i);
      forall o | o in Get(sys.store.db, k) ensures FromBoot(k, o) {
      }
      assert N.NatAt(sys.store.db, k) == {};
    }
  }
}
