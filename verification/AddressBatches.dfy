/** Batches as sysrepo delivers them: for each address that comes or goes, a record for
    the list entry, one for its ip and one for its prefix length or netmask. */
module AddressBatches {
  import opened Text
  import opened SysUtil
  import opened Sysrepo
  import opened ObjectStore
  import opened AddressChanges
  import opened AddressEffects

  datatype Subnet = Plain(len: Byte) | Mask(text: string)

  /** One address created (`add`) or deleted on an interface. */
  datatype Block = Block(add: bool, itf: string, ip: string, subnet: Subnet)

  /** Neither list key is empty. */
  predicate Keyed(b: Block) {
    b.itf != "" && b.ip != ""
  }

  predicate AllKeyed(bs: seq<Block>) {
    forall i :: 0 <= i < |bs| ==> Keyed(bs[i])
  }

  function SubnetLeaf(s: Subnet): Leaf {
    match s
    case Plain(n) => PrefixLength(n)
    case Mask(text) => Netmask(text)
  }

  /** The length variable after a subnet leaf; a bad netmask leaves it alone. */
  function LenAfter(c: Codec, len: Byte, s: Subnet): Byte {
    ParseLeaf(c, Some(SubnetLeaf(s)), "", len).1
  }

  function Record(b: Block, leaf: Leaf): Change {
    if b.add then Change(Created, b.itf, None, Some(leaf))
    else Change(Deleted, b.itf, Some(leaf), None)
  }

  function Triple(b: Block): seq<Change> {
    [Record(b, ListEntry), Record(b, Ip(b.ip)), Record(b, SubnetLeaf(b.subnet))]
  }

  function Stream(bs: seq<Block>): seq<Change> {
    if bs == [] then [] else Triple(bs[0]) + Stream(bs[1..])
  }

  // ----- the calls of a batch, as a set

  /** The calls of one block on one side, adding or removing, given the address and length
      last seen on that side. A block of this side makes two calls: its address with the
      length left by the block before, then with its own. A block of the other side
      repeats this side's last call, for the other block's interface. */
  function BlockSide(c: Codec, ip: string, len: Byte, b: Block, add: bool): set<Call> {
    if b.add == add then
      {Call(add, b.itf, b.ip, len), Call(add, b.itf, b.ip, LenAfter(c, len, b.subnet))}
    else if ip != "" then {Call(add, b.itf, ip, len)}
    else {}
  }

  function SideCalls(c: Codec, ip: string, len: Byte, bs: seq<Block>, add: bool): set<Call>
    decreases |bs|
  {
    if bs == [] then {}
    else
      var b := bs[0];
      BlockSide(c, ip, len, b, add)
      + if b.add == add then SideCalls(c, b.ip, LenAfter(c, len, b.subnet), bs[1..], add)
        else SideCalls(c, ip, len, bs[1..], add)
  }

  /** Between blocks a flag is set exactly when its address variable is. */
  predicate Boundary(a: Acc) {
    (a.create <==> a.newAddr != "") && (a.del <==> a.oldAddr != "")
  }

  function After(c: Codec, a: Acc, b: Block): Acc {
    if b.add then a.(create := true, newAddr := b.ip, newLen := LenAfter(c, a.newLen, b.subnet))
    else a.(del := true, oldAddr := b.ip, oldLen := LenAfter(c, a.oldLen, b.subnet))
  }

  /** The calls of one block, each fired after one of its three records; those of the
      other side are strays that repeat what came before. */
  function BlockCalls(c: Codec, a: Acc, b: Block): seq<Call> {
    if b.add then
      var stray := if a.oldAddr != "" then [Call(false, b.itf, a.oldAddr, a.oldLen)] else [];
      (stray + stray) + ([Call(true, b.itf, b.ip, a.newLen)] + stray
        + [Call(true, b.itf, b.ip, LenAfter(c, a.newLen, b.subnet))])
    else
      var stray := if a.newAddr != "" then [Call(true, b.itf, a.newAddr, a.newLen)] else [];
      stray + ([Call(false, b.itf, b.ip, a.oldLen)] + stray
        + [Call(false, b.itf, b.ip, LenAfter(c, a.oldLen, b.subnet))] + stray)
  }

  lemma {:induction false} CallsCons(c: Codec, a: Acc, ch: Change, rest: seq<Change>)
    requires ch.itf != ""
    ensures Calls(c, a, [ch] + rest) == Fired(Absorb(c, a, ch), ch.itf) + Calls(c, Absorb(c, a, ch), rest)
  {
    assert ([ch] + rest)[1..] == rest;
  }

  /** The accumulators after each record of a block. */
  lemma {:induction false} BlockAbsorbed(c: Codec, a: Acc, b: Block)
    ensures
      var a1 := Absorb(c, a, Record(b, ListEntry));
      var a2 := Absorb(c, a1, Record(b, Ip(b.ip)));
      var a3 := Absorb(c, a2, Record(b, SubnetLeaf(b.subnet)));
      && a3 == After(c, a, b)
      && if b.add then
           a1 == a.(create := true, newAddr := "") && a2 == a.(create := true, newAddr := b.ip)
         else
           a1 == a.(del := true, oldAddr := "") && a2 == a.(del := true, oldAddr := b.ip)
  {
  }

  lemma {:induction false} BlockFired(c: Codec, a: Acc, b: Block)
    requires Boundary(a) && Keyed(b)
    ensures
      var a1 := Absorb(c, a, Record(b, ListEntry));
      var a2 := Absorb(c, a1, Record(b, Ip(b.ip)));
      Fired(a1, b.itf) + (Fired(a2, b.itf) + Fired(After(c, a, b), b.itf)) == BlockCalls(c, a, b)
  {
    BlockAbsorbed(c, a, b);
  }

  lemma {:induction false} ThreeRecords(c: Codec, a: Acc, r1: Change, r2: Change, r3: Change, rest: seq<Change>)
    requires r1.itf != "" && r2.itf != "" && r3.itf != ""
    ensures var a1 := Absorb(c, a, r1);
      var a2 := Absorb(c, a1, r2);
      var a3 := Absorb(c, a2, r3);
      Calls(c, a, [r1, r2, r3] + rest)
      == Fired(a1, r1.itf) + (Fired(a2, r2.itf) + Fired(a3, r3.itf)) + Calls(c, a3, rest)
  {
    var a1 := Absorb(c, a, r1);
    var a2 := Absorb(c, a1, r2);
    var rest3 := [r3] + rest;
    var rest2 := [r2] + rest3;
    assert [r1, r2, r3] + rest == [r1] + rest2;
    CallsCons(c, a, r1, rest2);
    CallsCons(c, a1, r2, rest3);
    CallsCons(c, a2, r3, rest);
  }

  lemma {:induction false} BlockStep(c: Codec, a: Acc, b: Block, rest: seq<Change>)
    requires Boundary(a) && Keyed(b)
    ensures Calls(c, a, Triple(b) + rest) == BlockCalls(c, a, b) + Calls(c, After(c, a, b), rest)
  {
    ThreeRecords(c, a, Record(b, ListEntry), Record(b, Ip(b.ip)), Record(b, SubnetLeaf(b.subnet)), rest);
    BlockAbsorbed(c, a, b);
    BlockFired(c, a, b);
  }

  lemma {:induction false} BlockSides(c: Codec, a: Acc, b: Block)
    ensures CallSet(BlockCalls(c, a, b))
      == BlockSide(c, a.newAddr, a.newLen, b, true) + BlockSide(c, a.oldAddr, a.oldLen, b, false)
  {
  }

  lemma {:induction false} CallSetConcat(xs: seq<Call>, ys: seq<Call>)
    ensures CallSet(xs + ys) == CallSet(xs) + CallSet(ys)
  {
  }

  lemma {:induction false} SideStep(c: Codec, a: Acc, bs: seq<Block>)
    requires bs != []
    ensures var a1 := After(c, a, bs[0]);
      && SideCalls(c, a.newAddr, a.newLen, bs, true)
         == BlockSide(c, a.newAddr, a.newLen, bs[0], true) + SideCalls(c, a1.newAddr, a1.newLen, bs[1..], true)
      && SideCalls(c, a.oldAddr, a.oldLen, bs, false)
         == BlockSide(c, a.oldAddr, a.oldLen, bs[0], false) + SideCalls(c, a1.oldAddr, a1.oldLen, bs[1..], false)
  {
  }

  lemma {:induction false} StreamStep(c: Codec, a: Acc, bs: seq<Block>)
    requires bs != [] && Boundary(a) && Keyed(bs[0])
    ensures CallSet(Calls(c, a, Stream(bs)))
      == BlockSide(c, a.newAddr, a.newLen, bs[0], true) + BlockSide(c, a.oldAddr, a.oldLen, bs[0], false)
         + CallSet(Calls(c, After(c, a, bs[0]), Stream(bs[1..])))
  {
    BlockStep(c, a, bs[0], Stream(bs[1..]));
    BlockSides(c, a, bs[0]);
    CallSetConcat(BlockCalls(c, a, bs[0]), Calls(c, After(c, a, bs[0]), Stream(bs[1..])));
  }

  /** The calls of a batch are those of its two sides. */
  lemma {:induction false} StreamCalls(c: Codec, a: Acc, bs: seq<Block>)
    requires Boundary(a) && AllKeyed(bs)
    ensures CallSet(Calls(c, a, Stream(bs)))
      == SideCalls(c, a.newAddr, a.newLen, bs, true) + SideCalls(c, a.oldAddr, a.oldLen, bs, false)
    decreases |bs|
  {
    if bs == [] {
      assert Calls(c, a, []) == [];
    } else {
      var a1 := After(c, a, bs[0]);
      StreamStep(c, a, bs);
      StreamCalls(c, a1, bs[1..]);
      SideStep(c, a, bs);
    }
  }

  lemma {:induction false} StreamKeyed(bs: seq<Block>)
    requires AllKeyed(bs)
    ensures !Unkeyed(Stream(bs))
  {
    if bs != [] {
      StreamKeyed(bs[1..]);
      var rest := Stream(bs[1..]);
      forall i | 0 <= i < |Stream(bs)| ensures Stream(bs)[i].itf != "" {
        if i >= 3 {
          assert Stream(bs)[i] == rest[i - 3];
        }
      }
    }
  }

  lemma {:induction false} OneSide(c: Codec, ip: string, len: Byte, bs: seq<Block>, add: bool)
    ensures forall call :: call in SideCalls(c, ip, len, bs, add) ==> call.add == add
    decreases |bs|
  {
    if bs != [] {
      if bs[0].add == add {
        OneSide(c, bs[0].ip, LenAfter(c, len, bs[0].subnet), bs[1..], add);
      } else {
        OneSide(c, ip, len, bs[1..], add);
      }
    }
  }

  function AddCalls(c: Codec, bs: seq<Block>): set<Call> {
    SideCalls(c, "", 0, bs, true)
  }

  function RemoveCalls(c: Codec, bs: seq<Block>): set<Call> {
    SideCalls(c, "", 0, bs, false)
  }

  lemma {:induction false} BatchBindings(c: Codec, db: Db, bs: seq<Block>)
    requires AllKeyed(bs)
    ensures var calls := Calls(c, START, Stream(bs));
      && Added(c, db, calls) == Bindings(c, db, AddCalls(c, bs), true)
      && Removed(c, db, calls) == Bindings(c, db, RemoveCalls(c, bs), false)
      && (Traceable(c, db, RemoveCalls(c, bs)) ==> Traceable(c, db, CallSet(calls)))
  {
    StreamCalls(c, START, bs);
    OneSide(c, "", 0, bs, true);
    OneSide(c, "", 0, bs, false);
  }

  // ----- which removals come before the first addition on an interface

  /** A block adds to an interface: its own address, or a stray one. */
  predicate BlockAdds(c: Codec, a: Acc, b: Block, name: string) {
    && b.itf == name
    && if b.add then c.parse(b.ip).Some? else a.newAddr != "" && c.parse(a.newAddr).Some?
  }

  function RemovedBefore(c: Codec, a: Acc, bs: seq<Block>, name: string): set<Call>
    decreases |bs|
  {
    if bs == [] then {}
    else
      var side := BlockSide(c, a.oldAddr, a.oldLen, bs[0], false);
      if BlockAdds(c, a, bs[0], name) then if bs[0].add then side else {}
      else side + RemovedBefore(c, After(c, a, bs[0]), bs[1..], name)
  }

  function Removals(calls: seq<Call>): set<Call> {
    set call | call in calls && !call.add
  }

  lemma {:induction false} BlockAddsSomething(c: Codec, a: Acc, b: Block, name: string)
    ensures HasAdd(c, BlockCalls(c, a, b), name) <==> BlockAdds(c, a, b, name)
  {
    if BlockAdds(c, a, b, name) {
      var call := if b.add then Call(true, b.itf, b.ip, a.newLen) else Call(true, b.itf, a.newAddr, a.newLen);
      assert call in BlockCalls(c, a, b) && IsAdd(c, call, name);
    }
  }

  /** In a block that adds, only a created block's strays come first. */
  lemma {:induction false} BeforeBlock(c: Codec, a: Acc, b: Block, name: string)
    requires BlockAdds(c, a, b, name)
    ensures Removals(Before(c, BlockCalls(c, a, b), name))
      == if b.add then BlockSide(c, a.oldAddr, a.oldLen, b, false) else {}
  {
    if b.add {
      var stray := if a.oldAddr != "" then [Call(false, b.itf, a.oldAddr, a.oldLen)] else [];
      var early := Call(true, b.itf, b.ip, a.newLen);
      var rest := [early] + stray + [Call(true, b.itf, b.ip, LenAfter(c, a.newLen, b.subnet))];
      assert BlockCalls(c, a, b) == (stray + stray) + rest;
      BeforeConcat(c, stray + stray, rest, name);
      assert rest[0] == early && IsAdd(c, early, name);
      assert (stray + stray) + [] == stray + stray;
    } else {
      assert IsAdd(c, BlockCalls(c, a, b)[0], name);
    }
  }

  lemma {:induction false} RemovalsConcat(xs: seq<Call>, ys: seq<Call>)
    ensures Removals(xs + ys) == Removals(xs) + Removals(ys)
  {
  }

  lemma {:induction false} BeforeStream(c: Codec, a: Acc, bs: seq<Block>, name: string)
    requires Boundary(a) && AllKeyed(bs)
    ensures Removals(Before(c, Calls(c, a, Stream(bs)), name)) == RemovedBefore(c, a, bs, name)
    decreases |bs|
  {
    if bs == [] {
      assert Calls(c, a, []) == [];
    } else {
      var a1 := After(c, a, bs[0]);
      var xs, ys := BlockCalls(c, a, bs[0]), Calls(c, a1, Stream(bs[1..]));
      BlockStep(c, a, bs[0], Stream(bs[1..]));
      BeforeConcat(c, xs, ys, name);
      BlockAddsSomething(c, a, bs[0], name);
      if BlockAdds(c, a, bs[0], name) {
        BeforeBlock(c, a, bs[0], name);
      } else {
        BlockRemovals(c, a, bs[0]);
        BeforeStream(c, a1, bs[1..], name);
        RemovalsConcat(xs, Before(c, ys, name));
      }
    }
  }

  lemma {:induction false} BlockRemovals(c: Codec, a: Acc, b: Block)
    ensures Removals(BlockCalls(c, a, b)) == BlockSide(c, a.oldAddr, a.oldLen, b, false)
  {
    BlockSides(c, a, b);
    assert forall call :: call in BlockCalls(c, a, b) <==> call in CallSet(BlockCalls(c, a, b));
    assert forall call :: call in BlockSide(c, a.newAddr, a.newLen, b, true) ==> call.add;
    assert forall call :: call in BlockSide(c, a.oldAddr, a.oldLen, b, false) ==> !call.add;
  }

  /** The interface outlives what the batch removes before it first adds to it. */
  predicate LivesIn(c: Codec, db: Db, bs: seq<Block>, name: string) {
    Finds(Minus(c, db, Bindings(c, db, RemovedBefore(c, START, bs, name), false)), name)
  }

  /** The bindings of some additions whose interfaces live so long. */
  function Surviving(c: Codec, db: Db, bs: seq<Block>, adds: set<Call>): set<Obj> {
    set call | call in adds && Parses(c, call) && LivesIn(c, db, bs, call.itf) :: BindingOf(c, call)
  }

  lemma {:induction false} StreamLives(c: Codec, db: Db, bs: seq<Block>, name: string)
    requires AllKeyed(bs)
    ensures Lives(c, db, Calls(c, START, Stream(bs)), name) <==> LivesIn(c, db, bs, name)
  {
    var before := Before(c, Calls(c, START, Stream(bs)), name);
    BeforeStream(c, START, bs, name);
    assert Removed(c, db, before) == Bindings(c, db, Removals(before), false);
  }

  lemma {:induction false} BatchKept(c: Codec, db: Db, bs: seq<Block>)
    requires AllKeyed(bs)
    ensures Kept(c, db, Calls(c, START, Stream(bs))) == Surviving(c, db, bs, AddCalls(c, bs))
  {
    var calls := Calls(c, START, Stream(bs));
    StreamCalls(c, START, bs);
    OneSide(c, "", 0, bs, true);
    OneSide(c, "", 0, bs, false);
    forall call ensures call in calls && call.add <==> call in AddCalls(c, bs) {
      assert call in calls <==> call in CallSet(calls);
    }
    forall name ensures Lives(c, db, calls, name) <==> LivesIn(c, db, bs, name) {
      StreamLives(c, db, bs, name);
    }
  }

  /** What a batch leaves behind when nothing in it is both added and removed. */
  function Outcome(c: Codec, db: Db, bs: seq<Block>): Db {
    Plus(c, Minus(c, db, Bindings(c, db, RemoveCalls(c, bs), false)),
         Surviving(c, db, bs, AddCalls(c, bs)))
  }

  predicate OnlyCreates(bs: seq<Block>) {
    forall i :: 0 <= i < |bs| ==> bs[i].add
  }

  predicate OnlyDeletes(bs: seq<Block>) {
    forall i :: 0 <= i < |bs| ==> !bs[i].add
  }

  /** A batch of one kind has nothing on the other side. */
  lemma {:induction false} EmptySide(c: Codec, len: Byte, bs: seq<Block>, add: bool)
    requires forall i :: 0 <= i < |bs| ==> bs[i].add != add
    ensures SideCalls(c, "", len, bs, add) == {}
    decreases |bs|
  {
    if bs != [] {
      EmptySide(c, len, bs[1..], add);
    }
  }

  /** The effect of a batch in which nothing is both added and removed, over any
      interfaces, in any interleaving of creations and deletions, repeated calls and calls
      for the wrong interface included. */
  lemma {:induction false} BatchEffect(c: Codec, hw: Hw, db: Db, event: Event, bs: seq<Block>)
    requires Sound(c) && AllKeyed(bs) && Traceable(c, db, RemoveCalls(c, bs))
    requires event == Verify || event == Enabled
    requires Bindings(c, db, AddCalls(c, bs), true) !! Bindings(c, db, RemoveCalls(c, bs), false)
    ensures Interpret(c, hw, db, event, Ok, Stream(bs)).0 == Outcome(c, db, bs)
  {
    BatchBindings(c, db, bs);
    BatchKept(c, db, bs);
    NetEffect(c, hw, db, Ok, Calls(c, START, Stream(bs)));
  }

  /** Every binding key holds bindings, and only those it stands for. */
  predicate Tidy(c: Codec, db: Db) {
    forall k :: k in db && IsL3Key(k) ==> db[k] != {} && forall o :: o in db[k] ==> o.L3? && KeyOf(c, o) == k
  }

  lemma {:induction false} TidyIsTraceable(c: Codec, db: Db, calls: set<Call>)
    requires Sound(c) && Tidy(c, db)
    ensures forall name :: Owned(c, db, calls, name)
    ensures Traceable(c, db, calls)
  {
    forall call | call in calls && !call.add && Parses(c, call) && CallKey(c, call) in db
      ensures Mentions(db[CallKey(c, call)], call.itf)
    {
      var o, k := BindingOf(c, call), CallKey(c, call);
      KeysDisjoint(c, "", o.itf, o.pfx, 0);
      var o' :| o' in db[k];
      L3KeyInjective(c, o.itf, o.pfx, o'.itf, o'.pfx);
      assert Refers(o', call.itf);
    }
  }

  lemma {:induction false} TidyWithout(c: Codec, db: Db, ks: set<string>)
    requires Tidy(c, db)
    ensures Tidy(c, db - ks)
  {
  }

  // ----- batches of one kind

  /** The length variable after the first `n` blocks. */
  function LenAt(c: Codec, bs: seq<Block>, n: nat): Byte
    requires n <= |bs|
  {
    if n == 0 then 0 else LenAfter(c, LenAt(c, bs, n - 1), bs[n - 1].subnet)
  }

  /** Block `i`'s address with the length left by the block before it ... */
  function Early(c: Codec, bs: seq<Block>, i: nat): Call
    requires i < |bs|
  {
    Call(bs[i].add, bs[i].itf, bs[i].ip, LenAt(c, bs, i))
  }

  /** ... and with its own. */
  function Own(c: Codec, bs: seq<Block>, i: nat): Call
    requires i < |bs|
  {
    Call(bs[i].add, bs[i].itf, bs[i].ip, LenAt(c, bs, i + 1))
  }

  function TouchedFrom(c: Codec, bs: seq<Block>, k: nat): set<Call>
    requires k <= |bs|
  {
    (set i | k <= i < |bs| :: Early(c, bs, i)) + (set i | k <= i < |bs| :: Own(c, bs, i))
  }

  function Touched(c: Codec, bs: seq<Block>): set<Call> {
    TouchedFrom(c, bs, 0)
  }

  lemma {:induction false} TouchedStep(c: Codec, bs: seq<Block>, k: nat)
    requires k < |bs|
    ensures TouchedFrom(c, bs, k) == {Early(c, bs, k), Own(c, bs, k)} + TouchedFrom(c, bs, k + 1)
  {
    var early := set i | k <= i < |bs| :: Early(c, bs, i);
    var own := set i | k <= i < |bs| :: Own(c, bs, i);
    var early' := set i | k + 1 <= i < |bs| :: Early(c, bs, i);
    var own' := set i | k + 1 <= i < |bs| :: Own(c, bs, i);
    assert early == {Early(c, bs, k)} + early';
    assert own == {Own(c, bs, k)} + own';
  }

  lemma {:induction false} SideIsTouched(c: Codec, ip: string, bs: seq<Block>, k: nat, add: bool)
    requires k <= |bs| && forall i :: 0 <= i < |bs| ==> bs[i].add == add
    ensures SideCalls(c, ip, LenAt(c, bs, k), bs[k..], add) == TouchedFrom(c, bs, k)
    decreases |bs| - k
  {
    if k < |bs| {
      TouchedStep(c, bs, k);
      SideIsTouched(c, bs[k].ip, bs, k + 1, add);
      assert bs[k..][1..] == bs[k + 1..];
    }
  }

  lemma {:induction false} CreatedCalls(c: Codec, bs: seq<Block>)
    requires OnlyCreates(bs)
    ensures AddCalls(c, bs) == Touched(c, bs) && RemoveCalls(c, bs) == {}
    ensures forall call :: call in Touched(c, bs) ==> call.add
  {
    SideIsTouched(c, "", bs, 0, true);
    assert bs[0..] == bs;
    EmptySide(c, 0, bs, false);
    OneSide(c, "", 0, bs, true);
  }

  lemma {:induction false} DeletedCalls(c: Codec, bs: seq<Block>)
    requires OnlyDeletes(bs)
    ensures AddCalls(c, bs) == {} && RemoveCalls(c, bs) == Touched(c, bs)
    ensures forall call :: call in Touched(c, bs) ==> !call.add
  {
    SideIsTouched(c, "", bs, 0, false);
    assert bs[0..] == bs;
    EmptySide(c, 0, bs, true);
    OneSide(c, "", 0, bs, false);
  }

  lemma {:induction false} NoBindings(c: Codec, db: Db)
    ensures forall add :: Bindings(c, db, {}, add) == {}
  {
  }

  lemma {:induction false} CreatedSurvive(c: Codec, db: Db, bs: seq<Block>, adds: set<Call>)
    requires OnlyCreates(bs) && forall call :: call in adds ==> call.add
    ensures Surviving(c, db, bs, adds) == Bindings(c, db, adds, true)
  {
    forall name ensures LivesIn(c, db, bs, name) <==> Finds(db, name) {
      CreatesRemoveNothing(c, START, bs, name);
      NoBindings(c, db);
      NothingDone(c, db);
    }
  }

  /** Creating addresses on any number of interfaces: the store gains each block's
      address with its own length, and also with the length of the block before it (0
      for the first). Nothing else changes. Blocks whose interface does not exist or
      whose address does not parse contribute nothing. */
  lemma {:induction false} CreatedBatch(c: Codec, hw: Hw, db: Db, event: Event, bs: seq<Block>)
    requires Sound(c) && AllKeyed(bs) && OnlyCreates(bs)
    requires event == Verify || event == Enabled
    ensures Interpret(c, hw, db, event, Ok, Stream(bs)).0
      == Plus(c, db, Bindings(c, db, Touched(c, bs), true))
  {
    CreatedCalls(c, bs);
    NoBindings(c, db);
    BatchEffect(c, hw, db, event, bs);
    CreatedSurvive(c, db, bs, Touched(c, bs));
    NothingDone(c, db);
  }

  lemma {:induction false} CreatesRemoveNothing(c: Codec, a: Acc, bs: seq<Block>, name: string)
    requires OnlyCreates(bs) && a.oldAddr == ""
    ensures RemovedBefore(c, a, bs, name) == {}
    decreases |bs|
  {
    if bs != [] {
      CreatesRemoveNothing(c, After(c, a, bs[0]), bs[1..], name);
    }
  }

  /** Deleting addresses on any number of interfaces takes away exactly those keys, even
      when on the way the last object that kept an interface alive goes. */
  lemma {:induction false} DeletedBatch(c: Codec, hw: Hw, db: Db, event: Event, bs: seq<Block>)
    requires Sound(c) && AllKeyed(bs) && OnlyDeletes(bs) && Traceable(c, db, Touched(c, bs))
    requires event == Verify || event == Enabled
    ensures Interpret(c, hw, db, event, Ok, Stream(bs)).0
      == Minus(c, db, Bindings(c, db, Touched(c, bs), false))
  {
    DeletedCalls(c, bs);
    NoBindings(c, db);
    BatchEffect(c, hw, db, event, bs);
    assert Surviving(c, db, bs, {}) == {};
    NothingDone(c, Minus(c, db, Bindings(c, db, Touched(c, bs), false)));
  }
}
