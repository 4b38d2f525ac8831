/** Laws of address batches: interleaving, inversion, return codes, lost changes. */
module AddressLaws {
  import opened Text
  import opened SysUtil
  import opened Sysrepo
  import opened ObjectStore
  import opened AddressChanges
  import opened AddressEffects
  import opened AddressBatches
  import opened AddressOrder

  // ----- creations and deletions interleaved

  /** The blocks of one kind, in order. */
  function Filter(bs: seq<Block>, add: bool): (r: seq<Block>)
    ensures forall i :: 0 <= i < |r| ==> r[i].add == add && r[i] in bs
  {
    if bs == [] then []
    else if bs[0].add == add then [bs[0]] + Filter(bs[1..], add)
    else Filter(bs[1..], add)
  }

  /** Every block of the other kind is for the interface of the last block of this kind
      before it, if there is one. */
  predicate NoMisfire(bs: seq<Block>, add: bool, last: Option<string>)
    decreases |bs|
  {
    bs == [] ||
    if bs[0].add == add then NoMisfire(bs[1..], add, Some(bs[0].itf))
    else (last == None || last == Some(bs[0].itf)) && NoMisfire(bs[1..], add, last)
  }

  predicate DistinctIps(bs: seq<Block>) {
    forall i, j :: 0 <= i < j < |bs| ==> bs[i].ip != bs[j].ip
  }

  lemma {:induction false} FilterStep(bs: seq<Block>, add: bool)
    requires bs != [] && bs[0].add == add
    ensures Filter(bs, add) != [] && Filter(bs, add)[0] == bs[0] && Filter(bs, add)[1..] == Filter(bs[1..], add)
  {
  }

  /** The calls a batch asks for on one side are among those it makes. */
  lemma {:induction false} SideContains(c: Codec, ip: string, ip': string, len: Byte, bs: seq<Block>, add: bool)
    ensures SideCalls(c, ip', len, Filter(bs, add), add) <= SideCalls(c, ip, len, bs, add)
    decreases |bs|
  {
    if bs != [] {
      if bs[0].add == add {
        FilterStep(bs, add);
        SideContains(c, bs[0].ip, bs[0].ip, LenAfter(c, len, bs[0].subnet), bs[1..], add);
      } else {
        SideContains(c, ip, ip', len, bs[1..], add);
      }
    }
  }

  /** Without misfires it makes no others, but for repeating the last one before it. */
  lemma {:induction false} SideWithin(
    c: Codec, ip: string, ip': string, len: Byte, bs: seq<Block>, add: bool, last: Option<string>)
    requires NoMisfire(bs, add, last) && (last == None <==> ip == "") && AllKeyed(bs)
    ensures SideCalls(c, ip, len, bs, add)
      <= SideCalls(c, ip', len, Filter(bs, add), add)
         + if last.Some? then {Call(add, last.value, ip, len)} else {}
    decreases |bs|
  {
    if bs != [] {
      var b := bs[0];
      if b.add == add {
        FilterStep(bs, add);
        SideWithin(c, b.ip, b.ip, LenAfter(c, len, b.subnet), bs[1..], add, Some(b.itf));
      } else {
        SideWithin(c, ip, ip', len, bs[1..], add, last);
      }
    }
  }

  predicate HasBlock(bs: seq<Block>, itf: string, ip: string) {
    exists i :: 0 <= i < |bs| && bs[i].itf == itf && bs[i].ip == ip
  }

  lemma {:induction false} HasBlockTail(bs: seq<Block>, itf: string, ip: string)
    requires bs != [] && HasBlock(bs[1..], itf, ip)
    ensures HasBlock(bs, itf, ip)
  {
    var i :| 0 <= i < |bs[1..]| && bs[1..][i].itf == itf && bs[1..][i].ip == ip;
    assert bs[i + 1].itf == itf && bs[i + 1].ip == ip;
  }

  /** A misfire is a call that pairs a block's ip with some other interface. */
  lemma {:induction false} MisfireExists(
    c: Codec, ip: string, len: Byte, bs: seq<Block>, add: bool, last: Option<string>)
    returns (call: Call, owner: string)
    requires !NoMisfire(bs, add, last) && (last == None <==> ip == "") && AllKeyed(bs)
    ensures call in SideCalls(c, ip, len, bs, add) && call.itf != owner
    ensures (last == Some(owner) && call.ip == ip) || HasBlock(Filter(bs, add), owner, call.ip)
    decreases |bs|
  {
    var b := bs[0];
    if b.add == add {
      FilterStep(bs, add);
      call, owner := MisfireExists(c, b.ip, LenAfter(c, len, b.subnet), bs[1..], add, Some(b.itf));
      if owner == b.itf && call.ip == b.ip {
        assert Filter(bs, add)[0] == b;
      } else {
        HasBlockTail(Filter(bs, add), owner, call.ip);
      }
    } else if last != None && last != Some(b.itf) {
      call, owner := Call(add, b.itf, ip, len), last.value;
    } else {
      call, owner := MisfireExists(c, ip, len, bs[1..], add, last);
    }
  }

  lemma {:induction false} CallHasBlock(c: Codec, ip: string, len: Byte, bs: seq<Block>, add: bool, call: Call)
    requires call in SideCalls(c, ip, len, bs, add) && forall i :: 0 <= i < |bs| ==> bs[i].add == add
    ensures HasBlock(bs, call.itf, call.ip)
    decreases |bs|
  {
    var b := bs[0];
    if call !in BlockSide(c, ip, len, b, add) {
      CallHasBlock(c, b.ip, LenAfter(c, len, b.subnet), bs[1..], add, call);
      HasBlockTail(bs, call.itf, call.ip);
    }
  }

  lemma {:induction false} MisfireIsForeign(c: Codec, bs: seq<Block>, add: bool)
    requires AllKeyed(bs) && DistinctIps(Filter(bs, add)) && !NoMisfire(bs, add, None)
    ensures SideCalls(c, "", 0, bs, add) != SideCalls(c, "", 0, Filter(bs, add), add)
  {
    var fs := Filter(bs, add);
    var call, owner := MisfireExists(c, "", 0, bs, add, None);
    if call in SideCalls(c, "", 0, fs, add) {
      CallHasBlock(c, "", 0, fs, add, call);
    }
  }

  /** One side of an interleaved batch makes exactly the calls it would make alone, if and
      only if no block of the other kind comes between for a different interface. */
  lemma {:induction false} SideExact(c: Codec, bs: seq<Block>, add: bool)
    requires AllKeyed(bs) && DistinctIps(Filter(bs, add))
    ensures SideCalls(c, "", 0, bs, add) == Touched(c, Filter(bs, add))
      <==> NoMisfire(bs, add, None)
  {
    if NoMisfire(bs, add, None) {
      SideAlone(c, bs, add);
    } else {
      var fs := Filter(bs, add);
      SideIsTouched(c, "", fs, 0, add);
      assert fs[0..] == fs;
      MisfireIsForeign(c, bs, add);
    }
  }

  lemma {:induction false} OneInterface(bs: seq<Block>, add: bool, itf: string, last: Option<string>)
    requires forall i :: 0 <= i < |bs| ==> bs[i].itf == itf
    requires last == None || last == Some(itf)
    ensures NoMisfire(bs, add, last)
    decreases |bs|
  {
    if bs != [] {
      OneInterface(bs[1..], add, itf, if bs[0].add == add then Some(itf) else last);
    }
  }

  /** No address is both created and deleted on the same interface. */
  predicate DisjointAddresses(c: Codec, bs: seq<Block>) {
    forall i, j :: 0 <= i < |bs| && 0 <= j < |bs| && bs[i].add && !bs[j].add && bs[i].itf == bs[j].itf ==>
      c.parse(bs[i].ip).Some? ==> c.parse(bs[i].ip) != c.parse(bs[j].ip)
  }

  lemma {:induction false} DisjointBindings(c: Codec, db: Db, bs: seq<Block>)
    requires DisjointAddresses(c, bs)
    ensures Bindings(c, db, Touched(c, Filter(bs, true)), true)
      !! Bindings(c, db, Touched(c, Filter(bs, false)), false)
  {
    var adds, dels := Filter(bs, true), Filter(bs, false);
    forall x, y | x in Touched(c, adds) && y in Touched(c, dels) && x.itf == y.itf && c.parse(x.ip).Some?
      ensures c.parse(x.ip) != c.parse(y.ip)
    {
      var i :| 0 <= i < |adds| && (x == Early(c, adds, i) || x == Own(c, adds, i));
      var j :| 0 <= j < |dels| && (y == Early(c, dels, j) || y == Own(c, dels, j));
      assert adds[i] in bs && dels[j] in bs;
    }
  }

  lemma {:induction false} SideAlone(c: Codec, bs: seq<Block>, add: bool)
    requires AllKeyed(bs) && NoMisfire(bs, add, None)
    ensures SideCalls(c, "", 0, bs, add) == Touched(c, Filter(bs, add))
  {
    var fs := Filter(bs, add);
    SideIsTouched(c, "", fs, 0, add);
    assert fs[0..] == fs;
    SideContains(c, "", "", 0, bs, add);
    SideWithin(c, "", "", 0, bs, add, None);
  }

  /** The deleted blocks before the first creation on an interface. */
  function DeletesBefore(c: Codec, bs: seq<Block>, name: string): seq<Block> {
    if bs == [] || (bs[0].add && bs[0].itf == name && c.parse(bs[0].ip).Some?) then []
    else (if bs[0].add then [] else [bs[0]]) + DeletesBefore(c, bs[1..], name)
  }

  lemma {:induction false} DeletesBeforeStep(c: Codec, bs: seq<Block>, name: string)
    requires bs != [] && !bs[0].add
    ensures var ds := DeletesBefore(c, bs, name);
      ds != [] && ds[0] == bs[0] && ds[1..] == DeletesBefore(c, bs[1..], name)
  {
  }

  lemma {:induction false} DeletesBeforePrefix(c: Codec, bs: seq<Block>, name: string)
    ensures DeletesBefore(c, bs, name) <= Filter(bs, false)
  {
    if bs != [] {
      DeletesBeforePrefix(c, bs[1..], name);
    }
  }

  function Pending(a: Acc, last: Option<string>): set<Call> {
    if last.Some? then {Call(false, last.value, a.oldAddr, a.oldLen)} else {}
  }

  /** Without misfires, what goes before the first addition on an interface is what the
      batch deletes before it first creates there. */
  lemma {:induction false} RemovedBeforeSide(
    c: Codec, a: Acc, bs: seq<Block>, name: string, lastAdd: Option<string>, lastDel: Option<string>)
    requires AllKeyed(bs) && NoMisfire(bs, true, lastAdd) && NoMisfire(bs, false, lastDel)
    requires (lastAdd == None <==> a.newAddr == "") && (lastDel == None <==> a.oldAddr == "")
    requires lastAdd == Some(name) ==> c.parse(a.newAddr).None?
    ensures RemovedBefore(c, a, bs, name) + Pending(a, lastDel)
      == SideCalls(c, a.oldAddr, a.oldLen, DeletesBefore(c, bs, name), false) + Pending(a, lastDel)
    decreases |bs|
  {
    if bs != [] {
      var b := bs[0];
      if b.add {
        assert BlockSide(c, a.oldAddr, a.oldLen, b, false) == Pending(a, lastDel);
        if BlockAdds(c, a, b, name) {
          assert DeletesBefore(c, bs, name) == [];
        } else {
          assert DeletesBefore(c, bs, name) == DeletesBefore(c, bs[1..], name);
          RemovedBeforeSide(c, After(c, a, b), bs[1..], name, Some(b.itf), lastDel);
        }
      } else {
        DeletesBeforeStep(c, bs, name);
        RemovedBeforeSide(c, After(c, a, b), bs[1..], name, lastAdd, Some(b.itf));
      }
    }
  }

  lemma {:induction false} RemovedBeforeExact(c: Codec, bs: seq<Block>, name: string)
    requires AllKeyed(bs) && NoMisfire(bs, true, None) && NoMisfire(bs, false, None)
    ensures RemovedBefore(c, START, bs, name) == Touched(c, DeletesBefore(c, bs, name))
  {
    var ds := DeletesBefore(c, bs, name);
    RemovedBeforeSide(c, START, bs, name, None, None);
    DeletesBeforePrefix(c, bs, name);
    SideIsTouched(c, "", ds, 0, false);
    assert ds[0..] == ds;
  }

  /** The interface outlives what is deleted before the batch first creates on it. */
  predicate Outlives(c: Codec, db: Db, bs: seq<Block>, name: string) {
    Finds(Minus(c, db, Bindings(c, db, Touched(c, DeletesBefore(c, bs, name)), false)), name)
  }

  /** The created bindings on interfaces that last until then. */
  function Made(c: Codec, db: Db, bs: seq<Block>): set<Obj> {
    set call | call in Touched(c, Filter(bs, true)) && Parses(c, call) && Outlives(c, db, bs, call.itf) ::
      BindingOf(c, call)
  }

  /** The store without what the batch deletes. */
  function Emptied(c: Codec, db: Db, bs: seq<Block>): Db {
    Minus(c, db, Bindings(c, db, Touched(c, Filter(bs, false)), false))
  }

  /** What it creates on interfaces that exist before it. */
  function Asked(c: Codec, db: Db, bs: seq<Block>): set<Obj> {
    Bindings(c, db, Touched(c, Filter(bs, true)), true)
  }

  /** Deleting and creating addresses in any interleaving that does not misfire, such as
      any on a single interface: the deleted bindings are gone and the created ones are
      there, except on an interface whose last referent was deleted before. */
  lemma {:induction false} InterleavedBatch(c: Codec, hw: Hw, db: Db, event: Event, bs: seq<Block>)
    requires Sound(c) && AllKeyed(bs) && Traceable(c, db, Touched(c, Filter(bs, false)))
    requires event == Verify || event == Enabled
    requires NoMisfire(bs, true, None) && NoMisfire(bs, false, None)
    requires DisjointAddresses(c, bs)
    ensures Interpret(c, hw, db, event, Ok, Stream(bs)).0
      == Plus(c, Emptied(c, db, bs), Made(c, db, bs))
  {
    SideAlone(c, bs, true);
    SideAlone(c, bs, false);
    DisjointBindings(c, db, bs);
    BatchEffect(c, hw, db, event, bs);
    SurvivingMade(c, db, bs);
  }

  lemma {:induction false} LenAtPrefix(c: Codec, some: seq<Block>, all: seq<Block>, n: nat)
    requires some <= all && n <= |some|
    ensures LenAt(c, some, n) == LenAt(c, all, n)
  {
    if n > 0 {
      LenAtPrefix(c, some, all, n - 1);
    }
  }

  lemma {:induction false} TouchedPrefix(c: Codec, some: seq<Block>, all: seq<Block>)
    requires some <= all
    ensures Touched(c, some) <= Touched(c, all)
  {
    forall call | call in Touched(c, some) ensures call in Touched(c, all) {
      var i :| 0 <= i < |some| && (call == Early(c, some, i) || call == Own(c, some, i));
      LenAtPrefix(c, some, all, i);
      LenAtPrefix(c, some, all, i + 1);
      assert Early(c, all, i) in Touched(c, all) && Own(c, all, i) in Touched(c, all);
    }
  }

  /** An interface bound after all deletions is there before them. */
  lemma {:induction false} BoundOutlives(c: Codec, db: Db, bs: seq<Block>, k: string, o: Obj, name: string)
    requires o in Get(Emptied(c, db, bs), k) && Refers(o, name)
    ensures Outlives(c, db, bs, name)
  {
    var less, more := Touched(c, DeletesBefore(c, bs, name)), Touched(c, Filter(bs, false));
    DeletesBeforePrefix(c, bs, name);
    TouchedPrefix(c, DeletesBefore(c, bs, name), Filter(bs, false));
    FoundAt(Emptied(c, db, bs), k, o, name);
    MinusFinds(c, db, Bindings(c, db, less, false), Bindings(c, db, more, false), name);
  }

  lemma {:induction false} MadeWithin(c: Codec, db: Db, bs: seq<Block>)
    ensures Made(c, db, bs) <= Asked(c, db, bs)
  {
    var adds := Filter(bs, true);
    forall call | call in Touched(c, adds) && Parses(c, call) && Outlives(c, db, bs, call.itf)
      ensures call.add && Finds(db, call.itf)
    {
      MinusFinds(c, db, {}, Bindings(c, db, Touched(c, DeletesBefore(c, bs, call.itf)), false), call.itf);
    }
  }

  /** Each interface created on outlives what is deleted before the first creation there. */
  predicate AllOutlive(c: Codec, db: Db, bs: seq<Block>) {
    forall i :: 0 <= i < |bs| && bs[i].add && c.parse(bs[i].ip).Some? && Finds(db, bs[i].itf) ==>
      Outlives(c, db, bs, bs[i].itf)
  }

  lemma {:induction false} MadeAll(c: Codec, db: Db, bs: seq<Block>)
    requires AllOutlive(c, db, bs)
    ensures Made(c, db, bs) == Asked(c, db, bs)
  {
    var adds := Filter(bs, true);
    MadeWithin(c, db, bs);
    forall call | call in Touched(c, adds) && Effective(c, db, call) ensures Outlives(c, db, bs, call.itf) {
      var i :| 0 <= i < |adds| && (call == Early(c, adds, i) || call == Own(c, adds, i));
      assert adds[i] in bs;
    }
  }

  lemma {:induction false} FilterHas(bs: seq<Block>, b: Block)
    requires b in bs
    ensures b in Filter(bs, b.add)
  {
    if bs[0] != b {
      FilterHas(bs[1..], b);
    }
  }

  /** The removals the batch asks for. */
  function AskedGone(c: Codec, db: Db, bs: seq<Block>): set<Obj> {
    Bindings(c, db, Touched(c, Filter(bs, false)), false)
  }

  /** Of the bindings to go, those stored are all among some others. */
  predicate OnlyStored(c: Codec, db: Db, gone: set<Obj>, among: set<Obj>) {
    forall o :: o in gone && o.L3? && KeyOf(c, o) in db ==> o in among
  }

  /** Of the bindings to come, all but some were there. */
  predicate KnownBut(c: Codec, db: Db, objs: set<Obj>, but: set<Obj>) {
    forall o :: o in objs && o.L3? && o !in but ==> o in Get(db, KeyOf(c, o))
  }

  /** Every stored binding that the batch removes is one it was asked to remove. */
  predicate StraysMiss(c: Codec, db: Db, bs: seq<Block>) {
    OnlyStored(c, db, Bindings(c, db, RemoveCalls(c, bs), false), AskedGone(c, db, bs))
  }

  /** Every binding that it adds unasked was there. */
  predicate StraysKnown(c: Codec, db: Db, bs: seq<Block>) {
    KnownBut(c, db, Surviving(c, db, bs, AddCalls(c, bs)), Asked(c, db, bs))
  }

  /** Every binding asked for is added in time, or was there. */
  predicate AskedArrive(c: Codec, db: Db, bs: seq<Block>) {
    KnownBut(c, db, Asked(c, db, bs), Surviving(c, db, bs, AddCalls(c, bs)))
  }

  /** When two exchanges of bindings come to the same, one of which removes more. */
  lemma {:induction false} SameExchange(
    c: Codec, db: Db, added: set<Obj>, gone: set<Obj>, added': set<Obj>, gone': set<Obj>)
    requires Sound(c) && forall o :: o in added + gone + added' + gone' ==> o.L3?
    requires gone' <= gone && (added + added') !! gone
    ensures Plus(c, Minus(c, db, gone), added) == Plus(c, Minus(c, db, gone'), added')
      <==> OnlyStored(c, db, gone, gone') && KnownBut(c, db, added, added') && KnownBut(c, db, added', added)
  {
    if Plus(c, Minus(c, db, gone), added) == Plus(c, Minus(c, db, gone'), added') {
      SameOnlyIf(c, db, added, gone, added', gone');
    }
    if OnlyStored(c, db, gone, gone') && KnownBut(c, db, added, added') && KnownBut(c, db, added', added) {
      SameIf(c, db, added, gone, added', gone');
    }
  }

  lemma {:induction false} SameIf(
    c: Codec, db: Db, added: set<Obj>, gone: set<Obj>, added': set<Obj>, gone': set<Obj>)
    requires Sound(c) && forall o :: o in added + gone + added' + gone' ==> o.L3?
    requires gone' <= gone && (added + added') !! gone
    requires OnlyStored(c, db, gone, gone') && KnownBut(c, db, added, added') && KnownBut(c, db, added', added)
    ensures Plus(c, Minus(c, db, gone), added) == Plus(c, Minus(c, db, gone'), added')
  {
    var x, y := Plus(c, Minus(c, db, gone), added), Plus(c, Minus(c, db, gone'), added');
    forall k ensures (k in x <==> k in y) && Get(x, k) == Get(y, k) {
      SameAt(c, db, added, gone, added', gone', k);
    }
    SameDb(x, y);
  }

  lemma {:induction false} SameDb(x: Db, y: Db)
    requires forall k :: (k in x <==> k in y) && Get(x, k) == Get(y, k)
    ensures x == y
  {
    forall k | k in x ensures x[k] == y[k] {
      assert x[k] == Get(x, k) && y[k] == Get(y, k);
    }
  }

  lemma {:induction false} SameOnlyIf(
    c: Codec, db: Db, added: set<Obj>, gone: set<Obj>, added': set<Obj>, gone': set<Obj>)
    requires Sound(c) && forall o :: o in added + gone + added' + gone' ==> o.L3?
    requires gone' <= gone && (added + added') !! gone
    requires Plus(c, Minus(c, db, gone), added) == Plus(c, Minus(c, db, gone'), added')
    ensures OnlyStored(c, db, gone, gone') && KnownBut(c, db, added, added') && KnownBut(c, db, added', added)
  {
    var x, y := Plus(c, Minus(c, db, gone), added), Plus(c, Minus(c, db, gone'), added');
    forall o | o in gone && KeyOf(c, o) in db ensures o in gone' {
      KeyApart(c, o, added);
      assert KeyOf(c, o) in Keys(c, gone) && KeyOf(c, o) !in x;
      if o !in gone' {
        KeyApart(c, o, gone');
      }
    }
    forall o | o in added ensures o in added' || o in Get(db, KeyOf(c, o)) {
      assert o in AtKey(c, added, KeyOf(c, o)) && o in Get(x, KeyOf(c, o));
    }
    forall o | o in added' ensures o in added || o in Get(db, KeyOf(c, o)) {
      assert o in AtKey(c, added', KeyOf(c, o)) && o in Get(y, KeyOf(c, o));
    }
  }

  lemma {:induction false} SameAt(
    c: Codec, db: Db, added: set<Obj>, gone: set<Obj>, added': set<Obj>, gone': set<Obj>, k: string)
    requires Sound(c) && forall o :: o in added + gone + added' + gone' ==> o.L3?
    requires gone' <= gone && (added + added') !! gone
    requires OnlyStored(c, db, gone, gone') && KnownBut(c, db, added, added') && KnownBut(c, db, added', added)
    ensures var x, y := Plus(c, Minus(c, db, gone), added), Plus(c, Minus(c, db, gone'), added');
      (k in x <==> k in y) && Get(x, k) == Get(y, k)
  {
    if k in Keys(c, gone) {
      var o :| o in gone && o.L3? && KeyOf(c, o) == k;
      KeyApart(c, o, added);
      KeyApart(c, o, added');
      assert k in db ==> k in Keys(c, gone');
    } else {
      assert k !in Keys(c, gone');
      assert Get(db, k) + AtKey(c, added, k) == Get(db, k) + AtKey(c, added', k);
    }
  }

  /** A batch does to the store what it was asked to, all its deletions and all its
      creations and nothing else, if and only if its stray removals miss everything
      stored, its stray additions bind nothing new, and no creation comes after the last
      referent of its interface is gone. Misfires as such do no harm. */
  lemma {:induction false} AsAsked(c: Codec, hw: Hw, db: Db, event: Event, bs: seq<Block>)
    requires Sound(c) && AllKeyed(bs) && Traceable(c, db, RemoveCalls(c, bs))
    requires event == Verify || event == Enabled
    requires Bindings(c, db, AddCalls(c, bs), true) !! Bindings(c, db, RemoveCalls(c, bs), false)
    ensures Interpret(c, hw, db, event, Ok, Stream(bs)).0 == Plus(c, Emptied(c, db, bs), Asked(c, db, bs))
      <==> StraysMiss(c, db, bs) && StraysKnown(c, db, bs) && AskedArrive(c, db, bs)
  {
    BatchEffect(c, hw, db, event, bs);
    OutcomeAsAsked(c, db, bs);
  }

  lemma {:induction false} OutcomeAsAsked(c: Codec, db: Db, bs: seq<Block>)
    requires Sound(c)
    requires Bindings(c, db, AddCalls(c, bs), true) !! Bindings(c, db, RemoveCalls(c, bs), false)
    ensures Outcome(c, db, bs) == Plus(c, Emptied(c, db, bs), Asked(c, db, bs))
      <==> StraysMiss(c, db, bs) && StraysKnown(c, db, bs) && AskedArrive(c, db, bs)
  {
    var added, gone := Surviving(c, db, bs, AddCalls(c, bs)), Bindings(c, db, RemoveCalls(c, bs), false);
    var adds := Bindings(c, db, AddCalls(c, bs), true);
    AskedAmong(c, db, bs);
    SurvivingWithin(c, db, bs);
    assert forall o: Obj :: o in adds + gone ==> o.L3?;
    SameExchange(c, db, added, gone, Asked(c, db, bs), AskedGone(c, db, bs));
  }

  /** A binding is to be there after the batch. */
  predicate ToBe(c: Codec, db: Db, bs: seq<Block>, o: Obj)
    requires o.L3?
  {
    o in Asked(c, db, bs) || (KeyOf(c, o) in db && o !in AskedGone(c, db, bs))
  }

  lemma {:induction false} PlusTidy(c: Codec, db: Db, objs: set<Obj>)
    requires Sound(c) && Tidy(c, db)
    ensures Tidy(c, Plus(c, db, objs))
  {
    forall k | k in Keys(c, objs) ensures AtKey(c, objs, k) != {} {
      var o :| o in objs && o.L3? && KeyOf(c, o) == k;
      assert o in AtKey(c, objs, k);
    }
  }

  lemma {:induction false} AskedKeys(c: Codec, db: Db, bs: seq<Block>, o: Obj)
    requires Sound(c) && o.L3?
    ensures KeyOf(c, o) in Plus(c, Emptied(c, db, bs), Asked(c, db, bs)) <==> ToBe(c, db, bs, o)
  {
    if o !in Asked(c, db, bs) {
      KeyApart(c, o, Asked(c, db, bs));
    }
    if o !in AskedGone(c, db, bs) {
      KeyApart(c, o, AskedGone(c, db, bs));
    }
  }

  lemma {:induction false} BindingsOnly(c: Codec, db: Db, objs: set<Obj>, k: string)
    requires !IsL3Key(k)
    ensures k !in Keys(c, objs) && AtKey(c, objs, k) == {}
  {
    forall o | o in objs && o.L3? ensures KeyOf(c, o) != k {
      KeysDisjoint(c, "", o.itf, o.pfx, 0);
    }
  }

  /** For each binding, the last call for it agrees with what is to be, its interface being
      kept alive throughout where it is to be there. */
  ghost predicate LastCallsAgree(c: Codec, db: Db, bs: seq<Block>, calls: seq<Call>) {
    forall name, p ::
      Survives(c, db, calls, name) && Present(c, db, calls, L3(name, p)) <==> ToBe(c, db, bs, L3(name, p))
  }

  /** The tidy store that is as asked. */
  ghost predicate Fulfils(c: Codec, db: Db, bs: seq<Block>, db': Db) {
    && Tidy(c, db')
    && (forall k :: !IsL3Key(k) ==> (k in db' <==> k in db) && Get(db', k) == Get(db, k))
    && (forall name, p :: L3Key(c, name, p) in db' <==> ToBe(c, db, bs, L3(name, p)))
  }

  lemma {:induction false} AskedFulfils(c: Codec, db: Db, bs: seq<Block>)
    requires Sound(c) && Tidy(c, db)
    ensures Fulfils(c, db, bs, Plus(c, Emptied(c, db, bs), Asked(c, db, bs)))
  {
    var db' := Plus(c, Emptied(c, db, bs), Asked(c, db, bs));
    TidyWithout(c, db, Keys(c, AskedGone(c, db, bs)));
    PlusTidy(c, Emptied(c, db, bs), Asked(c, db, bs));
    forall k | !IsL3Key(k) ensures (k in db' <==> k in db) && Get(db', k) == Get(db, k) {
      BindingsOnly(c, db, Asked(c, db, bs), k);
      BindingsOnly(c, db, AskedGone(c, db, bs), k);
    }
    forall name, p ensures L3Key(c, name, p) in db' <==> ToBe(c, db, bs, L3(name, p)) {
      AskedKeys(c, db, bs, L3(name, p));
    }
  }

  lemma {:induction false} SettledAsAsked(c: Codec, db: Db, bs: seq<Block>, calls: seq<Call>, db1: Db, db2: Db)
    requires Sound(c) && Settled(c, db, calls, db1) && Fulfils(c, db, bs, db2)
    ensures db1 == db2 <==> LastCallsAgree(c, db, bs, calls)
  {
    if LastCallsAgree(c, db, bs, calls) {
      TidySame(c, db1, db2);
    }
    if db1 == db2 {
      forall name, p
        ensures Survives(c, db, calls, name) && Present(c, db, calls, L3(name, p)) <==> ToBe(c, db, bs, L3(name, p))
      {
        assert L3Key(c, name, p) in db1 <==> L3Key(c, name, p) in db2;
      }
    }
  }

  /** Also where strays remove what is asked for, as when an address moves between
      interfaces: on a tidy store a batch does what it was asked to if and only if the last
      calls agree with it. */
  lemma {:induction false} AsAskedInAnyCase(c: Codec, hw: Hw, db: Db, event: Event, bs: seq<Block>)
    requires Sound(c) && Tidy(c, db) && (event == Verify || event == Enabled)
    ensures Interpret(c, hw, db, event, Ok, Stream(bs)).0 == Plus(c, Emptied(c, db, bs), Asked(c, db, bs))
      <==> LastCallsAgree(c, db, bs, Calls(c, START, Stream(bs)))
  {
    var calls := Calls(c, START, Stream(bs));
    ExactEffect(c, hw, db, Ok, calls);
    AskedFulfils(c, db, bs);
    SettledAsAsked(c, db, bs, calls, Interpret(c, hw, db, event, Ok, Stream(bs)).0,
                   Plus(c, Emptied(c, db, bs), Asked(c, db, bs)));
  }

  lemma {:induction false} AskedAmong(c: Codec, db: Db, bs: seq<Block>)
    ensures Asked(c, db, bs) <= Bindings(c, db, AddCalls(c, bs), true)
    ensures AskedGone(c, db, bs) <= Bindings(c, db, RemoveCalls(c, bs), false)
  {
    forall add ensures Touched(c, Filter(bs, add)) <= SideCalls(c, "", 0, bs, add) {
      var fs := Filter(bs, add);
      SideIsTouched(c, "", fs, 0, add);
      assert fs[0..] == fs;
      SideContains(c, "", "", 0, bs, add);
    }
  }

  lemma {:induction false} SurvivingWithin(c: Codec, db: Db, bs: seq<Block>)
    ensures Surviving(c, db, bs, AddCalls(c, bs)) <= Bindings(c, db, AddCalls(c, bs), true)
  {
    OneSide(c, "", 0, bs, true);
    forall call | call in AddCalls(c, bs) && Parses(c, call) && LivesIn(c, db, bs, call.itf)
      ensures Effective(c, db, call)
    {
      MinusFinds(c, db, {}, Bindings(c, db, RemovedBefore(c, START, bs, call.itf), false), call.itf);
    }
  }

  lemma {:induction false} OneTouched(c: Codec, b: Block)
    ensures Touched(c, [b])
      == {Call(b.add, b.itf, b.ip, 0), Call(b.add, b.itf, b.ip, LenAfter(c, 0, b.subnet))}
  {
    var early := set i | 0 <= i < |[b]| :: Early(c, [b], i);
    var own := set i | 0 <= i < |[b]| :: Own(c, [b], i);
    assert Early(c, [b], 0) in early && Own(c, [b], 0) in own;
    assert LenAt(c, [b], 0) == 0 && LenAt(c, [b], 1) == LenAfter(c, 0, b.subnet);
  }

  lemma {:induction false} OneFilter(b: Block, add: bool)
    ensures Filter([b], add) == if b.add == add then [b] else []
  {
    assert [b][1..] == [] && Filter([], add) == [];
  }

  lemma {:induction false} OneEach(c: Codec, d: Block, b: Block)
    requires !d.add && b.add && d.ip != ""
    ensures Filter([d, b], false) == [d] && Filter([d, b], true) == [b]
    ensures AddCalls(c, [d, b]) == Touched(c, [b])
    ensures RemoveCalls(c, [d, b])
      == Touched(c, [d]) + {Call(false, b.itf, d.ip, LenAfter(c, 0, d.subnet))}
  {
    var len := LenAfter(c, 0, d.subnet);
    assert [d, b][1..] == [b] && [b][1..] == [];
    OneFilter(b, true);
    OneFilter(b, false);
    OneTouched(c, d);
    OneTouched(c, b);
    assert SideCalls(c, d.ip, len, [b], false) == {Call(false, b.itf, d.ip, len)};
    assert SideCalls(c, "", 0, [b], true) == Touched(c, [b]);
  }

  /** The simplest batch that misfires: an address deleted on one interface and another
      created on a second. It does harm only where the second interface holds the deleted
      address with the same length. */
  lemma {:induction false} HarmlessMisfire(c: Codec, hw: Hw, db: Db, event: Event, d: Block, b: Block)
    requires Sound(c) && Keyed(d) && Keyed(b) && !d.add && b.add && d.itf != b.itf
    requires event == Verify || event == Enabled
    requires c.parse(d.ip).Some? && c.parse(d.ip) != c.parse(b.ip)
    requires Traceable(c, db, RemoveCalls(c, [d, b])) && Outside(db, b.itf)
    ensures Interpret(c, hw, db, event, Ok, Stream([d, b])).0
        == Plus(c, Emptied(c, db, [d, b]), Asked(c, db, [d, b]))
      <==> L3Key(c, b.itf, RoutePrefix(c.parse(d.ip).value, LenAfter(c, 0, d.subnet))) !in db
  {
    TwoDisjoint(c, db, d, b);
    TwoArrive(c, db, d, b);
    AsAsked(c, hw, db, event, [d, b]);
    StrayMisses(c, db, d, b);
  }

  lemma {:induction false} TwoDisjoint(c: Codec, db: Db, d: Block, b: Block)
    requires !d.add && b.add && d.ip != ""
    requires c.parse(d.ip).Some? && c.parse(d.ip) != c.parse(b.ip)
    ensures Bindings(c, db, AddCalls(c, [d, b]), true) !! Bindings(c, db, RemoveCalls(c, [d, b]), false)
  {
    OneEach(c, d, b);
    OneTouched(c, d);
    OneTouched(c, b);
    forall call | call in RemoveCalls(c, [d, b]) ensures call.ip == d.ip {
    }
    forall call | call in AddCalls(c, [d, b]) ensures call.ip == b.ip {
    }
  }

  lemma {:induction false} TwoArrive(c: Codec, db: Db, d: Block, b: Block)
    requires !d.add && b.add && d.ip != "" && Outside(db, b.itf)
    ensures StraysKnown(c, db, [d, b]) && AskedArrive(c, db, [d, b]) && Finds(db, b.itf)
  {
    var bs, before := [d, b], RemovedBefore(c, START, [d, b], b.itf);
    OneEach(c, d, b);
    OneTouched(c, b);
    OutsideRooted(c, db, before, b.itf);
    MinusFinds(c, db, {}, Bindings(c, db, before, false), b.itf);
    forall call | call in AddCalls(c, bs) ensures call.add && call.itf == b.itf {
    }
    assert Surviving(c, db, bs, AddCalls(c, bs)) == Asked(c, db, bs);
  }

  lemma {:induction false} StrayMisses(c: Codec, db: Db, d: Block, b: Block)
    requires Keyed(d) && Keyed(b) && !d.add && b.add && d.itf != b.itf
    requires c.parse(d.ip).Some? && Finds(db, b.itf)
    ensures StraysMiss(c, db, [d, b])
      <==> L3Key(c, b.itf, RoutePrefix(c.parse(d.ip).value, LenAfter(c, 0, d.subnet))) !in db
  {
    var stray := Call(false, b.itf, d.ip, LenAfter(c, 0, d.subnet));
    var o := BindingOf(c, stray);
    OneEach(c, d, b);
    OneTouched(c, d);
    assert Effective(c, db, stray);
    assert Bindings(c, db, RemoveCalls(c, [d, b]), false) == AskedGone(c, db, [d, b]) + {o};
    assert o !in AskedGone(c, db, [d, b]);
  }

  lemma {:induction false} ArriveIff(c: Codec, db: Db, bs: seq<Block>)
    requires Sound(c) && AllKeyed(bs)
    requires NoMisfire(bs, true, None) && NoMisfire(bs, false, None)
    requires DisjointAddresses(c, bs)
    ensures AskedArrive(c, db, bs) <==> AllOutlive(c, db, bs)
  {
    SideAlone(c, bs, true);
    DisjointBindings(c, db, bs);
    SurvivingMade(c, db, bs);
    if AllOutlive(c, db, bs) {
      MadeAll(c, db, bs);
    }
    if AskedArrive(c, db, bs) {
      forall i | 0 <= i < |bs| && bs[i].add && c.parse(bs[i].ip).Some? && Finds(db, bs[i].itf)
        ensures Outlives(c, db, bs, bs[i].itf)
      {
        ArrivedOutlives(c, db, bs, i);
      }
    }
  }

  lemma {:induction false} SurvivingMade(c: Codec, db: Db, bs: seq<Block>)
    requires AllKeyed(bs) && NoMisfire(bs, true, None) && NoMisfire(bs, false, None)
    ensures Surviving(c, db, bs, AddCalls(c, bs)) == Made(c, db, bs)
  {
    SideAlone(c, bs, true);
    forall name ensures LivesIn(c, db, bs, name) <==> Outlives(c, db, bs, name) {
      RemovedBeforeExact(c, bs, name);
    }
  }

  lemma {:induction false} ArrivedOutlives(c: Codec, db: Db, bs: seq<Block>, i: nat)
    requires Sound(c) && Asked(c, db, bs) !! AskedGone(c, db, bs)
    requires i < |bs| && bs[i].add && c.parse(bs[i].ip).Some? && Finds(db, bs[i].itf)
    requires KnownBut(c, db, Asked(c, db, bs), Made(c, db, bs))
    ensures Outlives(c, db, bs, bs[i].itf)
  {
    var adds := Filter(bs, true);
    FilterHas(bs, bs[i]);
    var j :| 0 <= j < |adds| && adds[j] == bs[i];
    var call := Own(c, adds, j);
    var o := BindingOf(c, call);
    assert call in Touched(c, adds) && o in Asked(c, db, bs);
    if o !in Made(c, db, bs) {
      KeyApart(c, o, AskedGone(c, db, bs));
      BoundOutlives(c, db, bs, KeyOf(c, o), o, call.itf);
    }
  }

  /** Without misfires that leaves one condition: each interface created on outlives what is
      deleted before the first creation there. */
  lemma {:induction false} NothingLost(c: Codec, hw: Hw, db: Db, event: Event, bs: seq<Block>)
    requires Sound(c) && AllKeyed(bs) && Traceable(c, db, Touched(c, Filter(bs, false)))
    requires event == Verify || event == Enabled
    requires NoMisfire(bs, true, None) && NoMisfire(bs, false, None)
    requires DisjointAddresses(c, bs)
    ensures Interpret(c, hw, db, event, Ok, Stream(bs)).0 == Plus(c, Emptied(c, db, bs), Asked(c, db, bs))
      <==> AllOutlive(c, db, bs)
  {
    SideAlone(c, bs, true);
    SideAlone(c, bs, false);
    DisjointBindings(c, db, bs);
    AsAsked(c, hw, db, event, bs);
    SurvivingMade(c, db, bs);
    MadeWithin(c, db, bs);
    ArriveIff(c, db, bs);
  }

  // ----- a stray binding

  /** Additions never take an interface away, and bring none. */
  lemma {:induction false} AddsFind(c: Codec, hw: Hw, db: Db, rc: Rc, calls: seq<Call>, name: string)
    requires OnlyAdds(calls)
    ensures Finds(ExecAll(c, hw, db, rc, calls).0, name) <==> Finds(db, name)
    decreases |calls|
  {
    if calls != [] {
      var call := calls[0];
      assert call in calls;
      if Effective(c, db, call) {
        var o := BindingOf(c, call);
        WriteFinds(db, KeyOf(c, o), o, name);
      }
      var (db1, rc1) := Exec(c, hw, db, call);
      AddsFind(c, hw, db1, rc1, calls[1..], name);
    }
  }

  /** What no call removes stays. */
  lemma {:induction false} StaysBound(c: Codec, hw: Hw, db: Db, rc: Rc, calls: seq<Call>, o: Obj)
    requires Sound(c) && o.L3? && o in Get(db, KeyOf(c, o))
    requires forall call :: call in calls && !call.add && Parses(c, call) ==> BindingOf(c, call) != o
    ensures o in Get(ExecAll(c, hw, db, rc, calls).0, KeyOf(c, o))
    decreases |calls|
  {
    if calls != [] {
      var call := calls[0];
      assert call in calls;
      if !call.add && Parses(c, call) {
        KeyApart(c, o, {BindingOf(c, call)});
      }
      var (db1, rc1) := Exec(c, hw, db, call);
      StaysBound(c, hw, db1, rc1, calls[1..], o);
    }
  }

  /** A stray addition that is not removed in the calls after it stays. */
  lemma {:induction false} StrayBinds(
    c: Codec, hw: Hw, db: Db, rc: Rc, pre: seq<Call>, stray: Call, post: seq<Call>)
    requires Sound(c) && OnlyAdds(pre) && stray.add && Effective(c, db, stray)
    requires forall call :: call in post && !call.add && Parses(c, call) ==>
      BindingOf(c, call) != BindingOf(c, stray)
    ensures BindingOf(c, stray)
      in Get(ExecAll(c, hw, db, rc, pre + ([stray] + post)).0, CallKey(c, stray))
  {
    AddsFind(c, hw, db, rc, pre, stray.itf);
    ExecConcat(c, hw, db, rc, pre, [stray] + post);
    var (db1, rc1) := ExecAll(c, hw, db, rc, pre);
    var (db2, rc2) := Exec(c, hw, db1, stray);
    assert ([stray] + post)[1..] == post;
    StaysBound(c, hw, db2, rc2, post, BindingOf(c, stray));
  }

  lemma {:induction false} LastStrayBinds(
    c: Codec, hw: Hw, db: Db, rc: Rc, xs: seq<Call>, ys: seq<Call>, stray: Call)
    requires Sound(c) && Outside(db, stray.itf)
    requires stray.add && Parses(c, stray) && ys != [] && ys[|ys| - 1] == stray
    ensures BindingOf(c, stray) in Get(ExecAll(c, hw, db, rc, xs + ys).0, CallKey(c, stray))
  {
    var front := xs + ys[..|ys| - 1];
    assert xs + ys == front + [stray];
    LastForSnoc(c, front, stray, BindingOf(c, stray));
    OutsideRooted(c, db, CallSet(xs + ys), stray.itf);
    RootedBinding(c, hw, db, rc, xs + ys, BindingOf(c, stray));
  }

  lemma {:induction false} TwoBlocks(c: Codec, b: Block, d: Block)
    requires Keyed(b) && Keyed(d)
    ensures Calls(c, START, Stream([b, d])) == BlockCalls(c, START, b) + BlockCalls(c, After(c, START, b), d)
  {
    var a := After(c, START, b);
    assert [b, d][1..] == [d] && [d][1..] == [] && Stream([]) == [];
    BlockStep(c, START, b, Stream([d]));
    BlockStep(c, a, d, []);
    assert Calls(c, After(c, a, d), []) == [];
  }

  /** The deleted block's calls begin and end with the stray addition. */
  lemma {:induction false} StrayEnds(c: Codec, b: Block, d: Block)
    requires Keyed(b) && b.add && !d.add
    ensures var a := After(c, START, b);
      var stray, ys := Call(true, d.itf, b.ip, a.newLen), BlockCalls(c, a, d);
      && OnlyAdds(BlockCalls(c, START, b))
      && ys != [] && ys[0] == stray && ys[|ys| - 1] == stray
      && forall call :: call in ys && !call.add ==> call.ip == d.ip
  {
  }

  /** Over two interfaces a batch can bind an address nobody asked for: creating `b` and
      then deleting `d` elsewhere also binds `b`'s address to `d`'s interface. */
  lemma {:induction false} Misfire(c: Codec, hw: Hw, db: Db, event: Event, b: Block, d: Block)
    requires Sound(c) && Keyed(b) && Keyed(d) && b.add && !d.add && b.itf != d.itf
    requires event == Verify || event == Enabled
    requires c.parse(b.ip).Some?
    requires Outside(db, d.itf) || (Finds(db, d.itf) && c.parse(d.ip) != c.parse(b.ip))
    ensures var pfx := RoutePrefix(c.parse(b.ip).value, LenAfter(c, 0, b.subnet));
      var db' := Interpret(c, hw, db, event, Ok, Stream([b, d])).0;
      L3(d.itf, pfx) in Get(db', L3Key(c, d.itf, pfx))
  {
    var a := After(c, START, b);
    var stray := Call(true, d.itf, b.ip, a.newLen);
    var xs, ys := BlockCalls(c, START, b), BlockCalls(c, a, d);
    TwoBlocks(c, b, d);
    StrayEnds(c, b, d);
    if Outside(db, d.itf) {
      LastStrayBinds(c, hw, db, Ok, xs, ys, stray);
    } else {
      assert ys == [stray] + ys[1..];
      StrayBinds(c, hw, db, Ok, xs, stray, ys[1..]);
    }
  }

  // ----- deleting what was created

  lemma {:induction false} KeysWithin(c: Codec, objs: set<Obj>, objs': set<Obj>)
    requires Sound(c) && forall o :: o in objs + objs' ==> o.L3?
    ensures Keys(c, objs) <= Keys(c, objs') <==> objs <= objs'
  {
    if Keys(c, objs) <= Keys(c, objs') {
      forall o | o in objs ensures o in objs' {
        assert KeyOf(c, o) in Keys(c, objs');
        if o !in objs' {
          KeyApart(c, o, objs');
        }
      }
    }
  }

  lemma {:induction false} PlusMinus(c: Codec, db: Db, added: set<Obj>, removed: set<Obj>)
    requires Sound(c) && forall o :: o in added + removed ==> o.L3?
    requires Keys(c, added) !! db.Keys
    ensures Minus(c, Plus(c, db, added), removed) == db
      <==> added <= removed && Keys(c, removed) !! db.Keys
  {
    var db2 := Minus(c, Plus(c, db, added), removed);
    KeysWithin(c, added, removed);
    assert db2.Keys == db.Keys + Keys(c, added) - Keys(c, removed);
    forall k | k in db.Keys ensures Plus(c, db, added)[k] == db[k] {
      assert AtKey(c, added, k) == {};
    }
    if db2 == db {
      assert forall k :: k in Keys(c, removed) ==> k !in db2.Keys;
    }
  }

  lemma {:induction false} PlusRooted(c: Codec, db: Db, made: set<Obj>, gone: set<Obj>, name: string)
    requires Finds(Minus(c, db, gone), name)
    ensures Finds(Minus(c, Plus(c, db, made), gone), name)
  {
    var k :| k in Minus(c, db, gone) && Mentions(Minus(c, db, gone)[k], name);
    var o :| o in db[k] && Refers(o, name);
    FoundAt(Minus(c, Plus(c, db, made), gone), k, o, name);
  }

  lemma {:induction false} MadeOwns(c: Codec, db: Db, made: set<Obj>, call: Call)
    requires Sound(c) && Parses(c, call) && CallKey(c, call) in Keys(c, made)
    ensures Mentions(Plus(c, db, made)[CallKey(c, call)], call.itf)
  {
    var k := CallKey(c, call);
    var o :| o in made && o.L3? && KeyOf(c, o) == k;
    var x := BindingOf(c, call);
    L3KeyInjective(c, o.itf, o.pfx, x.itf, x.pfx);
    assert o in AtKey(c, made, k) && Refers(o, call.itf);
  }

  lemma {:induction false} PlusOwned(c: Codec, db: Db, made: set<Obj>, calls: set<Call>, name: string)
    requires Sound(c) && Owned(c, db, calls, name)
    ensures Owned(c, Plus(c, db, made), calls, name)
  {
    var db1 := Plus(c, db, made);
    forall call | call in calls && !call.add && call.itf == name && Parses(c, call) && CallKey(c, call) in db1
      ensures Mentions(db1[CallKey(c, call)], name)
    {
      var k := CallKey(c, call);
      if k in db {
        var o :| o in db[k] && Refers(o, name);
        assert o in db1[k];
      } else {
        MadeOwns(c, db, made, call);
      }
    }
  }

  lemma {:induction false} SameFinds(c: Codec, db: Db, db1: Db, calls: set<Call>, add: bool)
    requires forall name :: Finds(db1, name) <==> Finds(db, name)
    ensures Bindings(c, db1, calls, add) == Bindings(c, db, calls, add)
  {
    assert forall call :: Effective(c, db1, call) <==> Effective(c, db, call);
  }

  /** Adding bindings on interfaces that exist leaves deletions traceable. */
  lemma {:induction false} PlusTraceable(c: Codec, db: Db, made: set<Obj>, calls: set<Call>)
    requires Sound(c) && Traceable(c, db, calls)
    requires forall o :: o in made ==> o.L3? && Finds(db, o.itf)
    ensures Traceable(c, Plus(c, db, made), calls)
    ensures Bindings(c, Plus(c, db, made), calls, false) == Bindings(c, db, calls, false)
  {
    var db1 := Plus(c, db, made);
    forall name ensures Finds(db1, name) <==> Finds(db, name) {
      PlusFinds(c, db, made, name);
    }
    SameFinds(c, db, db1, calls, false);
    forall call | call in calls && !call.add && Finds(db1, call.itf)
      ensures Rooted(c, db1, calls, call.itf) || Owned(c, db1, calls, call.itf)
    {
      if Rooted(c, db, calls, call.itf) {
        PlusRooted(c, db, made, Bindings(c, db, calls, false), call.itf);
      } else {
        PlusOwned(c, db, made, calls, call.itf);
      }
    }
  }

  /** A batch of creations followed by a batch of deletions gives the store back if and
      only if the deletions touch every binding the creations made, those with a stale
      length included, and none that was there before. */
  lemma {:induction false} CreateThenDelete(c: Codec, hw: Hw, db: Db, event: Event, bs: seq<Block>, ds: seq<Block>)
    requires Sound(c) && AllKeyed(bs) && AllKeyed(ds) && OnlyCreates(bs) && OnlyDeletes(ds)
    requires event == Verify || event == Enabled
    requires Traceable(c, db, Touched(c, ds))
    requires Keys(c, Bindings(c, db, Touched(c, bs), true)) !! db.Keys
    ensures
      var made, gone := Bindings(c, db, Touched(c, bs), true), Bindings(c, db, Touched(c, ds), false);
      var db1 := Interpret(c, hw, db, event, Ok, Stream(bs)).0;
      Interpret(c, hw, db1, event, Ok, Stream(ds)).0 == db
      <==> made <= gone && Keys(c, gone) !! db.Keys
  {
    var made := Bindings(c, db, Touched(c, bs), true);
    CreatedBatch(c, hw, db, event, bs);
    PlusTraceable(c, db, made, Touched(c, ds));
    DeletedBatch(c, hw, Plus(c, db, made), event, ds);
    PlusMinus(c, db, made, Bindings(c, db, Touched(c, ds), false));
  }

  /** The same blocks, deleted. */
  function Undo(bs: seq<Block>): (ds: seq<Block>)
    ensures |ds| == |bs| && forall i :: 0 <= i < |bs| ==> ds[i] == bs[i].(add := false)
  {
    seq(|bs|, i requires 0 <= i < |bs| => bs[i].(add := false))
  }

  lemma {:induction false} UndoLens(c: Codec, bs: seq<Block>, n: nat)
    requires n <= |bs|
    ensures LenAt(c, Undo(bs), n) == LenAt(c, bs, n)
  {
    if n > 0 {
      UndoLens(c, bs, n - 1);
    }
  }

  lemma {:induction false} UndoCalls(c: Codec, bs: seq<Block>, i: nat)
    requires i < |bs|
    ensures Early(c, Undo(bs), i) == Early(c, bs, i).(add := false)
    ensures Own(c, Undo(bs), i) == Own(c, bs, i).(add := false)
  {
    UndoLens(c, bs, i);
    UndoLens(c, bs, i + 1);
  }

  lemma {:induction false} TouchedUndone(c: Codec, bs: seq<Block>, call: Call)
    requires call in Touched(c, bs)
    ensures call.(add := false) in Touched(c, Undo(bs))
  {
    var i :| 0 <= i < |bs| && (call == Early(c, bs, i) || call == Own(c, bs, i));
    UndoCalls(c, bs, i);
    assert Early(c, Undo(bs), i) in Touched(c, Undo(bs));
    assert Own(c, Undo(bs), i) in Touched(c, Undo(bs));
  }

  lemma {:induction false} UndoneTouched(c: Codec, bs: seq<Block>, call: Call)
    requires OnlyCreates(bs) && call in Touched(c, Undo(bs))
    ensures call.(add := true) in Touched(c, bs)
  {
    var i :| 0 <= i < |bs| && (call == Early(c, Undo(bs), i) || call == Own(c, Undo(bs), i));
    UndoCalls(c, bs, i);
    assert Early(c, bs, i) in Touched(c, bs) && Own(c, bs, i) in Touched(c, bs);
  }

  lemma {:induction false} TouchedAdds(c: Codec, bs: seq<Block>, call: Call)
    requires OnlyCreates(bs) && call in Touched(c, bs)
    ensures call.add
  {
  }

  lemma {:induction false} UndoTouches(c: Codec, db: Db, bs: seq<Block>)
    requires OnlyCreates(bs)
    ensures Bindings(c, db, Touched(c, Undo(bs)), false) == Bindings(c, db, Touched(c, bs), true)
  {
    forall call | call in Touched(c, bs) ensures call.add && call.(add := false) in Touched(c, Undo(bs)) {
      TouchedAdds(c, bs, call);
      TouchedUndone(c, bs, call);
    }
    forall call | call in Touched(c, Undo(bs)) ensures call.(add := true) in Touched(c, bs) {
      UndoneTouched(c, bs, call);
    }
    SameBindings(c, db, Touched(c, bs), Touched(c, Undo(bs)));
  }

  lemma {:induction false} SameBindings(c: Codec, db: Db, adds: set<Call>, dels: set<Call>)
    requires forall call :: call in adds ==> call.add && call.(add := false) in dels
    requires forall call :: call in dels ==> call.(add := true) in adds
    ensures Bindings(c, db, dels, false) == Bindings(c, db, adds, true)
  {
    forall o | o in Bindings(c, db, adds, true) ensures o in Bindings(c, db, dels, false) {
      var call :| call in adds && call.add && Effective(c, db, call) && BindingOf(c, call) == o;
      var call' := call.(add := false);
      assert call' in dels && Effective(c, db, call') && BindingOf(c, call') == o;
    }
    forall o | o in Bindings(c, db, dels, false) ensures o in Bindings(c, db, adds, true) {
      var call :| call in dels && !call.add && Effective(c, db, call) && BindingOf(c, call) == o;
      var call' := call.(add := true);
      assert call' in adds && Effective(c, db, call') && BindingOf(c, call') == o;
    }
  }

  /** Removals of keys that are not there are traceable. */
  lemma {:induction false} AbsentIsTraceable(c: Codec, db: Db, calls: set<Call>)
    requires Keys(c, Bindings(c, db, calls, false)) !! db.Keys
    ensures Traceable(c, db, calls)
  {
    forall call | call in calls && !call.add && Effective(c, db, call) ensures CallKey(c, call) !in db {
      assert BindingOf(c, call) in Bindings(c, db, calls, false);
      assert CallKey(c, call) in Keys(c, Bindings(c, db, calls, false));
    }
  }

  /** Deleting the blocks of a creation batch in the same order undoes it. */
  lemma {:induction false} DeletionInvertsCreation(c: Codec, hw: Hw, db: Db, event: Event, bs: seq<Block>)
    requires Sound(c) && AllKeyed(bs) && OnlyCreates(bs)
    requires event == Verify || event == Enabled
    requires Keys(c, Bindings(c, db, Touched(c, bs), true)) !! db.Keys
    ensures
      var db1 := Interpret(c, hw, db, event, Ok, Stream(bs)).0;
      Interpret(c, hw, db1, event, Ok, Stream(Undo(bs))).0 == db
  {
    UndoTouches(c, db, bs);
    AbsentIsTraceable(c, db, Touched(c, Undo(bs)));
    CreateThenDelete(c, hw, db, event, bs, Undo(bs));
  }

  // ----- return codes

  /** The calls of a batch of one kind, in order: two for each block. */
  function CallList(c: Codec, bs: seq<Block>, k: nat): seq<Call>
    requires k <= |bs|
    decreases |bs| - k
  {
    if k == |bs| then [] else [Early(c, bs, k), Own(c, bs, k)] + CallList(c, bs, k + 1)
  }

  lemma {:induction false} OneKindCalls(c: Codec, a: Acc, bs: seq<Block>, k: nat, add: bool)
    requires k <= |bs| && AllKeyed(bs) && forall i :: 0 <= i < |bs| ==> bs[i].add == add
    requires Boundary(a) && (if add then a.oldAddr == "" else a.newAddr == "")
    requires (if add then a.newLen else a.oldLen) == LenAt(c, bs, k)
    ensures Calls(c, a, Stream(bs[k..])) == CallList(c, bs, k)
    decreases |bs| - k
  {
    if k == |bs| {
      assert Calls(c, a, []) == [];
    } else {
      assert bs[k..][1..] == bs[k + 1..];
      BlockStep(c, a, bs[k], Stream(bs[k + 1..]));
      assert BlockCalls(c, a, bs[k]) == [Early(c, bs, k), Own(c, bs, k)];
      OneKindCalls(c, After(c, a, bs[k]), bs, k + 1, add);
    }
  }

  lemma {:induction false} CallListAt(c: Codec, bs: seq<Block>, k: nat, i: nat)
    requires k <= i < |bs|
    ensures var calls := CallList(c, bs, k);
      && |calls| == 2 * (|bs| - k)
      && calls[2 * (i - k)] == Early(c, bs, i) && calls[2 * (i - k) + 1] == Own(c, bs, i)
    decreases |bs| - k
  {
    if k < i {
      CallListAt(c, bs, k + 1, i);
    } else if k + 1 < |bs| {
      CallListAt(c, bs, k + 1, k + 1);
    }
  }

  /** The calls but for the last one, which is the last block's own. */
  function AllButLast(c: Codec, bs: seq<Block>): set<Call> {
    (set i | 0 <= i < |bs| :: Early(c, bs, i)) + (set i | 0 <= i < |bs| - 1 :: Own(c, bs, i))
  }

  lemma {:induction false} FrontSet(c: Codec, bs: seq<Block>, calls: seq<Call>)
    requires bs != [] && |calls| == 2 * |bs|
    requires forall i :: 0 <= i < |bs| ==> calls[2 * i] == Early(c, bs, i)
    requires forall i :: 0 <= i < |bs| ==> calls[2 * i + 1] == Own(c, bs, i)
    ensures CallSet(calls[..|calls| - 1]) == AllButLast(c, bs)
  {
    var front := calls[..|calls| - 1];
    forall call | call in AllButLast(c, bs) ensures call in front {
      if i :| 0 <= i < |bs| && call == Early(c, bs, i) {
        assert front[2 * i] == call;
      } else {
        var i :| 0 <= i < |bs| - 1 && call == Own(c, bs, i);
        assert front[2 * i + 1] == call;
      }
    }
    forall j | 0 <= j < |front| ensures front[j] in AllButLast(c, bs) {
      var i := j / 2;
      if j == 2 * i {
        assert calls[2 * i] == Early(c, bs, i);
      } else {
        assert calls[2 * i + 1] == Own(c, bs, i) && i < |bs| - 1;
      }
    }
  }

  lemma {:induction false} CallListPairs(c: Codec, bs: seq<Block>)
    ensures var calls := CallList(c, bs, 0);
      && |calls| == 2 * |bs|
      && (forall i :: 0 <= i < |bs| ==> calls[2 * i] == Early(c, bs, i))
      && (forall i :: 0 <= i < |bs| ==> calls[2 * i + 1] == Own(c, bs, i))
  {
    forall i | 0 <= i < |bs|
      ensures var calls := CallList(c, bs, 0);
        && |calls| == 2 * |bs| && calls[2 * i] == Early(c, bs, i) && calls[2 * i + 1] == Own(c, bs, i)
    {
      CallListAt(c, bs, 0, i);
    }
  }

  lemma {:induction false} AllButLastKind(c: Codec, bs: seq<Block>, add: bool)
    requires forall i :: 0 <= i < |bs| ==> bs[i].add == add
    ensures forall call :: call in AllButLast(c, bs) ==> call.add == add
  {
  }

  lemma {:induction false} BatchCallList(c: Codec, bs: seq<Block>, add: bool)
    requires AllKeyed(bs) && forall i :: 0 <= i < |bs| ==> bs[i].add == add
    ensures Calls(c, START, Stream(bs)) == CallList(c, bs, 0)
  {
    assert bs[0..] == bs;
    OneKindCalls(c, START, bs, 0, add);
  }

  lemma {:induction false} CallListFront(c: Codec, bs: seq<Block>) returns (front: seq<Call>)
    requires bs != []
    ensures CallList(c, bs, 0) == front + [Own(c, bs, |bs| - 1)]
    ensures CallSet(front) == AllButLast(c, bs)
  {
    var calls := CallList(c, bs, 0);
    CallListPairs(c, bs);
    FrontSet(c, bs, calls);
    front := calls[..|calls| - 1];
    assert calls[2 * (|bs| - 1) + 1] == Own(c, bs, |bs| - 1);
  }

  lemma {:induction false} LastCall(c: Codec, bs: seq<Block>, add: bool) returns (front: seq<Call>)
    requires bs != [] && AllKeyed(bs) && forall i :: 0 <= i < |bs| ==> bs[i].add == add
    ensures Calls(c, START, Stream(bs)) == front + [Own(c, bs, |bs| - 1)]
    ensures CallSet(front) == AllButLast(c, bs)
    ensures forall call :: call in front ==> call.add == add
  {
    BatchCallList(c, bs, add);
    front := CallListFront(c, bs);
    AllButLastKind(c, bs, add);
    assert forall call :: call in front ==> call in CallSet(front);
  }

  /** The code of a creation batch tells about its last call only: whether the last
      block's interface exists, its address parses, and VPP takes the binding with the
      block's own length. All earlier failures are overwritten. */
  lemma {:induction false} CreatedBatchCode(c: Codec, hw: Hw, db: Db, event: Event, bs: seq<Block>)
    requires AllKeyed(bs) && OnlyCreates(bs)
    requires event == Verify || event == Enabled
    ensures var r := Interpret(c, hw, db, event, Ok, Stream(bs));
      r.1 == Ok
      <==> (bs != [] ==>
        var call := Own(c, bs, |bs| - 1);
        Effective(c, db, call) && hw(r.0, CallKey(c, call), BindingOf(c, call)))
  {
    StreamKeyed(bs);
    if bs != [] {
      var front := LastCall(c, bs, true);
      var last := Own(c, bs, |bs| - 1);
      ExecLast(c, hw, db, Ok, front, last);
      AddsFind(c, hw, db, Ok, front, last.itf);
    }
  }

  lemma {:induction false} DeletedCallSet(c: Codec, bs: seq<Block>)
    requires AllKeyed(bs) && OnlyDeletes(bs)
    ensures CallSet(Calls(c, START, Stream(bs))) == Touched(c, bs)
  {
    StreamCalls(c, START, bs);
    DeletedCalls(c, bs);
  }

  lemma {:induction false} RemovalsEffect(c: Codec, hw: Hw, db: Db, rc: Rc, calls: seq<Call>)
    requires Sound(c) && Traceable(c, db, CallSet(calls)) && forall call :: call in calls ==> !call.add
    ensures ExecAll(c, hw, db, rc, calls).0 == Minus(c, db, Bindings(c, db, CallSet(calls), false))
  {
    assert Kept(c, db, calls) == {} && Added(c, db, calls) == {};
    NothingDone(c, Minus(c, db, Removed(c, db, calls)));
    NetEffect(c, hw, db, rc, calls);
  }

  /** The code of a deletion batch is OK exactly when the last block's address parses and
      something keeps its interface alive until the very last of the calls, two for each
      block. A batch that takes the last referent earlier empties the store and fails. */
  lemma {:induction false} DeletedBatchCode(c: Codec, hw: Hw, db: Db, event: Event, bs: seq<Block>)
    requires Sound(c) && AllKeyed(bs) && OnlyDeletes(bs) && Traceable(c, db, Touched(c, bs))
    requires event == Verify || event == Enabled
    ensures Interpret(c, hw, db, event, Ok, Stream(bs)).1 == Ok
      <==> (bs != [] ==>
        var last := bs[|bs| - 1];
        && c.parse(last.ip).Some?
        && Finds(Minus(c, db, Bindings(c, db, AllButLast(c, bs), false)), last.itf))
  {
    StreamKeyed(bs);
    if bs != [] {
      var front := LastCall(c, bs, false);
      var last := Own(c, bs, |bs| - 1);
      DeletedCallSet(c, bs);
      TraceableFront(c, db, front, last);
      RemovalsEffect(c, hw, db, Ok, front);
      ExecLast(c, hw, db, Ok, front, last);
    }
  }

  // ----- lost changes

  /** A leaf that sets the address. */
  predicate ReadsIp(leaf: Option<Leaf>) {
    leaf.Some? && leaf.value.Ip? && leaf.value.text != ""
  }

  predicate SeesIp(c: Codec, ch: Change) {
    match ch.oper
    case Created => ReadsIp(ch.newVal)
    case Deleted => ReadsIp(ch.oldVal)
    case Modified => ReadsIp(ch.oldVal) || (ReadsIp(ch.newVal) && !Throws(c, ch.oldVal))
    case Moved => false
  }

  lemma {:induction false} SilentIff(c: Codec, a: Acc, chs: seq<Change>)
    requires a.newAddr == "" && a.oldAddr == ""
    requires forall i :: 0 <= i < |chs| ==> chs[i].itf != ""
    ensures Calls(c, a, chs) == [] <==> forall i :: 0 <= i < |chs| ==> !SeesIp(c, chs[i])
    decreases |chs|
  {
    if chs != [] {
      var a1 := Absorb(c, a, chs[0]);
      var rest := chs[1..];
      if SeesIp(c, chs[0]) {
        assert Fired(a1, chs[0].itf) != [];
      } else {
        SilentIff(c, a1, rest);
        assert Fired(a1, chs[0].itf) == [];
        assert forall i :: 1 <= i < |chs| ==> chs[i] == rest[i - 1];
        assert forall i :: 0 <= i < |rest| ==> rest[i] == chs[i + 1];
      }
    }
  }

  /** A batch fires no call at all if and only if none of its records shows an ip; then
      it is accepted and the store stays. So a change that reaches only lengths, from one
      length to another, or from a prefix length to a netmask or back, is lost. */
  lemma {:induction false} NoIpNoEffect(c: Codec, hw: Hw, db: Db, event: Event, chs: seq<Change>)
    requires forall i :: 0 <= i < |chs| ==> chs[i].itf != ""
    ensures Calls(c, START, chs) == [] <==> forall i :: 0 <= i < |chs| ==> !SeesIp(c, chs[i])
    ensures (forall i :: 0 <= i < |chs| ==> !SeesIp(c, chs[i])) ==>
      Interpret(c, hw, db, event, Ok, chs) == (db, Ok)
  {
    SilentIff(c, START, chs);
  }

  predicate IsLength(leaf: Option<Leaf>) {
    leaf.Some? && (leaf.value.PrefixLength? || leaf.value.Netmask?)
  }

  predicate LengthOnly(ch: Change) {
    ch.oper == Modified && IsLength(ch.oldVal) && IsLength(ch.newVal)
  }

  /** Changing only the prefix length or netmask of existing addresses is accepted and
      has no effect: the address the length belongs to is never seen. */
  lemma {:induction false} ModifiedLengthsAreLost(c: Codec, hw: Hw, db: Db, event: Event, chs: seq<Change>)
    requires forall i :: 0 <= i < |chs| ==> LengthOnly(chs[i]) && chs[i].itf != ""
    ensures Interpret(c, hw, db, event, Ok, chs) == (db, Ok)
  {
    NoIpNoEffect(c, hw, db, event, chs);
    forall i | 0 <= i < |chs| ensures !SeesIp(c, chs[i]) {
      assert LengthOnly(chs[i]);
    }
  }

  /** A subnet leaf that goes and one that comes, the entry and its ip staying. */
  predicate Respelled(del: Change, create: Change) {
    del.oper == Deleted && IsLength(del.oldVal) && create.oper == Created && IsLength(create.newVal)
  }

  /** Replacing a prefix length by a netmask, or the other way round, is lost as well. */
  lemma {:induction false} RespelledLengthIsLost(
    c: Codec, hw: Hw, db: Db, event: Event, del: Change, create: Change)
    requires Respelled(del, create) && del.itf != "" && create.itf != ""
    ensures Interpret(c, hw, db, event, Ok, [del, create]) == (db, Ok)
    ensures Interpret(c, hw, db, event, Ok, [create, del]) == (db, Ok)
  {
    NoIpNoEffect(c, hw, db, event, [del, create]);
    NoIpNoEffect(c, hw, db, event, [create, del]);
  }

  /** A record that modified an ip in place would move the binding with length 0 on both
      sides, and lose it if the old one was all that kept the interface alive. */
  lemma {:induction false} ModifiedAddressMoves(
    c: Codec, hw: Hw, db: Db, event: Event, itf: string, from: string, to: string)
    requires itf != "" && from != "" && to != "" && Finds(db, itf)
    requires event == Verify || event == Enabled
    requires c.parse(from).Some? && c.parse(to).Some?
    ensures
      var db' := Interpret(c, hw, db, event, Ok, [Change(Modified, itf, Some(Ip(from)), Some(Ip(to)))]).0;
      var gone, made := RoutePrefix(c.parse(from).value, 0), RoutePrefix(c.parse(to).value, 0);
      var db1 := Remove(db, L3Key(c, itf, gone));
      db' == if Finds(db1, itf) then Write(db1, L3Key(c, itf, made), L3(itf, made)) else db1
  {
    var ch := Change(Modified, itf, Some(Ip(from)), Some(Ip(to)));
    var remove, add := Call(false, itf, from, 0), Call(true, itf, to, 0);
    assert [ch][1..] == [];
    assert Calls(c, START, [ch]) == [remove, add];
    var (db1, rc1) := Exec(c, hw, db, remove);
    assert [remove, add] == [remove] + [add] && [remove][1..] == [];
    ExecLast(c, hw, db, Ok, [remove], add);
  }
}
