/** What the address callback calls, read off the records themselves: at each record the
    address and the length last shown on either side. The accumulators of the callback do
    not occur here except to be compared. */
module AddressReadings {
  import opened Text
  import opened SysUtil
  import opened Sysrepo
  import opened ObjectStore
  import opened AddressChanges
  import opened AddressEffects
  import opened AddressBatches
  import opened AddressOrder

  // ----- any stream of records

  /** A value that cannot be read: none at all, or a netmask that is no IPv4 address. */
  predicate Unreadable(c: Codec, leaf: Option<Leaf>) {
    match leaf
    case None => true
    case Some(Netmask(text)) => !(c.parse(text).Some? && c.parse(text).value.V4?)
    case Some(_) => false
  }

  /** What a record shows on the new side or on the old one. A modified record is read old
      value first, and its new one only if that could be read. */
  function Shown(c: Codec, ch: Change, add: bool): Option<Leaf> {
    match ch.oper
    case Created => if add then ch.newVal else None
    case Deleted => if add then None else ch.oldVal
    case Modified =>
      if !add then ch.oldVal else if Unreadable(c, ch.oldVal) then None else ch.newVal
    case Moved => None
  }

  /** The address shown last; a list entry clears it. */
  function LastText(c: Codec, chs: seq<Change>, add: bool): string {
    if chs == [] then ""
    else
      match Shown(c, chs[|chs| - 1], add)
      case Some(ListEntry) => ""
      case Some(Ip(text)) => text
      case _ => LastText(c, chs[..|chs| - 1], add)
  }

  /** The number of bits up to the highest one set, of a netmask as the host reads it. */
  function MaskBits(q: Quad): Byte {
    HostWordBits(q);
    BitLength(HostWord(q))
  }

  /** The length shown last; 0 before any. */
  function LastLength(c: Codec, chs: seq<Change>, add: bool): Byte {
    if chs == [] then 0
    else
      var before := LastLength(c, chs[..|chs| - 1], add);
      match Shown(c, chs[|chs| - 1], add)
      case Some(PrefixLength(n)) => n
      case Some(Netmask(text)) =>
        if c.parse(text).Some? && c.parse(text).value.V4? then MaskBits(c.parse(text).value.quad) else before
      case _ => before
  }

  /** Some record creates (or deletes), or modifies. */
  predicate Asks(chs: seq<Change>, add: bool) {
    exists i :: 0 <= i < |chs| &&
      (chs[i].oper == Modified || chs[i].oper == if add then Created else Deleted)
  }

  /** The call on one side after the last of some records. */
  function SideCall(c: Codec, chs: seq<Change>, add: bool): seq<Call>
    requires chs != []
  {
    var text := LastText(c, chs, add);
    if Asks(chs, add) && text != "" then
      [Call(add, chs[|chs| - 1].itf, text, LastLength(c, chs, add))]
    else []
  }

  /** After each record with an interface key a removal of the old address last shown, then
      an addition of the new one, for the interface of that record. */
  function Expected(c: Codec, chs: seq<Change>, k: nat): seq<Call>
    requires k <= |chs|
    decreases |chs| - k
  {
    if k == |chs| || chs[k].itf == "" then []
    else
      SideCall(c, chs[..k + 1], false) + SideCall(c, chs[..k + 1], true) + Expected(c, chs, k + 1)
  }

  function AccAt(c: Codec, chs: seq<Change>): Acc {
    Acc(Asks(chs, true), Asks(chs, false),
        LastText(c, chs, true), LastLength(c, chs, true),
        LastText(c, chs, false), LastLength(c, chs, false))
  }

  lemma {:induction false} AsksSnoc(front: seq<Change>, ch: Change, add: bool)
    ensures Asks(front + [ch], add)
      <==> Asks(front, add) || ch.oper == Modified || ch.oper == if add then Created else Deleted
  {
    var chs := front + [ch];
    assert chs[|front|] == ch;
    assert forall i :: 0 <= i < |front| ==> chs[i] == front[i];
  }

  lemma {:induction false} TextSnoc(c: Codec, front: seq<Change>, ch: Change, add: bool)
    ensures LastText(c, front + [ch], add)
      == match Shown(c, ch, add)
         case Some(ListEntry) => ""
         case Some(Ip(text)) => text
         case _ => LastText(c, front, add)
  {
    assert (front + [ch])[..|front|] == front;
  }

  lemma {:induction false} LengthSnoc(c: Codec, front: seq<Change>, ch: Change, add: bool)
    ensures var before := LastLength(c, front, add);
      LastLength(c, front + [ch], add)
      == match Shown(c, ch, add)
         case Some(PrefixLength(n)) => n
         case Some(Netmask(text)) =>
           if c.parse(text).Some? && c.parse(text).value.V4? then MaskBits(c.parse(text).value.quad) else before
         case _ => before
  {
    assert (front + [ch])[..|front|] == front;
  }

  /** What the leaf parser makes of a value is what the value shows. */
  lemma {:induction false} LeafShows(c: Codec, leaf: Option<Leaf>, addr: string, len: Byte)
    ensures Throws(c, leaf) <==> Unreadable(c, leaf)
    ensures ParseLeaf(c, leaf, addr, len).0
      == match leaf
         case Some(ListEntry) => ""
         case Some(Ip(text)) => text
         case _ => addr
    ensures ParseLeaf(c, leaf, addr, len).1
      == match leaf
         case Some(PrefixLength(n)) => n
         case Some(Netmask(text)) =>
           if c.parse(text).Some? && c.parse(text).value.V4? then MaskBits(c.parse(text).value.quad) else len
         case _ => len
  {
    if leaf.Some? && leaf.value.Netmask? {
      var parsed := c.parse(leaf.value.text);
      if parsed.Some? && parsed.value.V4? {
        HostWordBits(parsed.value.quad);
      }
    }
  }

  lemma {:induction false} AbsorbShows(c: Codec, front: seq<Change>, ch: Change)
    ensures Absorb(c, AccAt(c, front), ch) == AccAt(c, front + [ch])
  {
    var a := AccAt(c, front);
    AsksSnoc(front, ch, true);
    AsksSnoc(front, ch, false);
    TextSnoc(c, front, ch, true);
    TextSnoc(c, front, ch, false);
    LengthSnoc(c, front, ch, true);
    LengthSnoc(c, front, ch, false);
    LeafShows(c, ch.newVal, a.newAddr, a.newLen);
    LeafShows(c, ch.oldVal, a.oldAddr, a.oldLen);
  }

  lemma {:induction false} CallsFrom(c: Codec, chs: seq<Change>, k: nat)
    requires k <= |chs|
    ensures Calls(c, AccAt(c, chs[..k]), chs[k..]) == Expected(c, chs, k)
    decreases |chs| - k
  {
    if k < |chs| {
      assert chs[..k + 1] == chs[..k] + [chs[k]];
      assert chs[k..][1..] == chs[k + 1..];
      AbsorbShows(c, chs[..k], chs[k]);
      CallsFrom(c, chs, k + 1);
    }
  }

  /** For every stream of records: the calls of the callback, in order. */
  lemma {:induction false} CallsAreExpected(c: Codec, chs: seq<Change>)
    ensures Calls(c, START, chs) == Expected(c, chs, 0)
  {
    assert AccAt(c, []) == START;
    assert chs[..0] == [] && chs[0..] == chs;
    CallsFrom(c, chs, 0);
  }

  // ----- events

  /** What the callback does by event: nothing on an applied commit or an aborted one, nor
      when the changes cannot be had; otherwise the calls, up to the first record without
      an interface, whose code is then an error whatever the calls returned. */
  lemma {:induction false} ByEvent(c: Codec, hw: Hw, db: Db, event: Event, iter: Rc, chs: seq<Change>)
    ensures event == Apply ==> Interpret(c, hw, db, event, iter, chs) == (db, Ok)
    ensures event == Abort ==> Interpret(c, hw, db, event, iter, chs) == (db, iter)
    ensures event != Apply && iter != Ok ==> Interpret(c, hw, db, event, iter, chs) == (db, iter)
    ensures (event == Verify || event == Enabled) && iter == Ok ==>
      var r := ExecAll(c, hw, db, Ok, Expected(c, chs, 0));
      Interpret(c, hw, db, event, iter, chs)
      == (r.0, if exists i :: 0 <= i < |chs| && chs[i].itf == "" then OperationFailed else r.1)
  {
    CallsAreExpected(c, chs);
  }

  // ----- the lengths of a batch

  /** The length a block stands for, given the one before it: the prefix length itself; of a
      netmask the bits up to its highest; and the one before where it cannot be read. */
  function LengthOf(c: Codec, s: Subnet, before: Byte): Byte {
    match s
    case Plain(n) => n
    case Mask(text) =>
      match c.parse(text)
      case Some(V4(q)) => MaskBits(q)
      case _ => before
  }

  /** The length with which block `i` is bound. */
  function BlockLength(c: Codec, bs: seq<Block>, i: nat): Byte
    requires i < |bs|
  {
    LengthOf(c, bs[i].subnet, if i == 0 then 0 else BlockLength(c, bs, i - 1))
  }

  lemma {:induction false} LengthIsRead(c: Codec, s: Subnet, before: Byte)
    ensures LenAfter(c, before, s) == LengthOf(c, s, before)
  {
    LeafShows(c, Some(SubnetLeaf(s)), "", before);
  }

  lemma {:induction false} LengthAt(c: Codec, bs: seq<Block>, i: nat)
    requires i < |bs|
    ensures LenAt(c, bs, i + 1) == BlockLength(c, bs, i)
  {
    if i > 0 {
      LengthAt(c, bs, i - 1);
    }
    LengthIsRead(c, bs[i].subnet, LenAt(c, bs, i));
  }

  /** The two prefixes that a created block binds: its address with its own length, and with
      the length of the block before it, 0 for the first. */
  predicate Binds(c: Codec, bs: seq<Block>, i: nat, p: RoutePrefix)
    requires i < |bs|
  {
    && c.parse(bs[i].ip) == Some(p.addr)
    && (p.len == BlockLength(c, bs, i) || p.len == if i == 0 then 0 else BlockLength(c, bs, i - 1))
  }

  lemma {:induction false} CallBinds(c: Codec, bs: seq<Block>, i: nat, p: RoutePrefix)
    requires i < |bs|
    ensures Binds(c, bs, i, p)
      <==> && Parses(c, Own(c, bs, i))
           && (|| BindingOf(c, Own(c, bs, i)) == L3(bs[i].itf, p)
               || BindingOf(c, Early(c, bs, i)) == L3(bs[i].itf, p))
  {
    LengthAt(c, bs, i);
    if i > 0 {
      LengthAt(c, bs, i - 1);
    }
  }

  lemma {:induction false} BoundByBlock(c: Codec, db: Db, bs: seq<Block>, name: string, p: RoutePrefix)
    requires L3(name, p) in Bindings(c, db, Touched(c, bs), true)
    ensures Finds(db, name) && exists i :: 0 <= i < |bs| && bs[i].itf == name && Binds(c, bs, i, p)
  {
    var o := L3(name, p);
    var call :| call in Touched(c, bs) && call.add && Effective(c, db, call) && BindingOf(c, call) == o;
    assert Parses(c, call) && call.itf == BindingOf(c, call).itf;
    var i :| 0 <= i < |bs| && (call == Early(c, bs, i) || call == Own(c, bs, i));
    CallBinds(c, bs, i, p);
  }

  lemma {:induction false} BlockIsBound(
    c: Codec, db: Db, bs: seq<Block>, name: string, p: RoutePrefix, i: nat)
    requires i < |bs| && bs[i].add && Finds(db, name) && bs[i].itf == name && Binds(c, bs, i, p)
    ensures L3(name, p) in Bindings(c, db, Touched(c, bs), true)
  {
    CallBinds(c, bs, i, p);
    assert Own(c, bs, i) in Touched(c, bs) && Effective(c, db, Own(c, bs, i));
    assert Early(c, bs, i) in Touched(c, bs) && Effective(c, db, Early(c, bs, i));
  }

  lemma {:induction false} BindsAre(c: Codec, db: Db, bs: seq<Block>, name: string, p: RoutePrefix)
    requires OnlyCreates(bs)
    ensures L3(name, p) in Bindings(c, db, Touched(c, bs), true)
      <==> Finds(db, name) && exists i :: 0 <= i < |bs| && bs[i].itf == name && Binds(c, bs, i, p)
  {
    if L3(name, p) in Bindings(c, db, Touched(c, bs), true) {
      BoundByBlock(c, db, bs, name, p);
    }
    if Finds(db, name) && exists i :: 0 <= i < |bs| && bs[i].itf == name && Binds(c, bs, i, p) {
      var i :| 0 <= i < |bs| && bs[i].itf == name && Binds(c, bs, i, p);
      BlockIsBound(c, db, bs, name, p, i);
    }
  }

  /** Creating addresses, in terms of the batch and nothing else: under the key of a binding
      it is there afterwards if and only if it was before, or its interface exists and some
      block asks for it or leaves its length to the block after. */
  lemma {:induction false} CreatedExactly(
    c: Codec, hw: Hw, db: Db, event: Event, bs: seq<Block>, name: string, p: RoutePrefix)
    requires Sound(c) && AllKeyed(bs) && OnlyCreates(bs)
    requires event == Verify || event == Enabled
    ensures var db' := Interpret(c, hw, db, event, Ok, Stream(bs)).0;
      L3(name, p) in Get(db', L3Key(c, name, p))
      <==> || L3(name, p) in Get(db, L3Key(c, name, p))
           || (Finds(db, name) && exists i :: 0 <= i < |bs| && bs[i].itf == name && Binds(c, bs, i, p))
  {
    var o := L3(name, p);
    CreatedBatch(c, hw, db, event, bs);
    BindsAre(c, db, bs, name, p);
    assert o in AtKey(c, Bindings(c, db, Touched(c, bs), true), KeyOf(c, o))
      <==> o in Bindings(c, db, Touched(c, bs), true);
  }

  function WholeOctets(p: nat): nat {
    (p + 7) / 8 * 8
  }

  predicate MasksTo(c: Codec, text: string, p: nat, n: Byte) {
    p <= 32 && c.parse(text) == Some(V4(SysUtil.Mask(p))) && n == WholeOctets(p)
  }

  /** A subnet leaf spells a length: the prefix length itself, or the contiguous netmask of
      some length, which is rounded up to whole octets. */
  ghost predicate Spells(c: Codec, s: Subnet, n: Byte) {
    match s
    case Plain(len) => n == len
    case Mask(text) =>
      exists p: nat :: MasksTo(c, text, p, n)
  }

  lemma {:induction false} MaskedBits(p: nat)
    requires p <= 32
    ensures MaskBits(SysUtil.Mask(p)) == WholeOctets(p)
  {
    var q := SysUtil.Mask(p);
    HostWordBits(q);
    assert MaskBits(q) == LastOctetBits(q);
    MaskLength(p);
  }

  lemma {:induction false} SpelledLength(c: Codec, s: Subnet, n: Byte, before: Byte)
    requires Spells(c, s, n)
    ensures LengthOf(c, s, before) == n
  {
    if s.Mask? {
      var p: nat :| MasksTo(c, s.text, p, n);
      MaskedBits(p);
    }
  }

  /** So every block of the batch whose interface exists is bound with its own length. */
  lemma {:induction false} CreatedLength(
    c: Codec, hw: Hw, db: Db, event: Event, bs: seq<Block>, i: nat, n: Byte)
    requires Sound(c) && AllKeyed(bs) && OnlyCreates(bs)
    requires event == Verify || event == Enabled
    requires i < |bs| && Finds(db, bs[i].itf) && c.parse(bs[i].ip).Some? && Spells(c, bs[i].subnet, n)
    ensures var pfx := RoutePrefix(c.parse(bs[i].ip).value, n);
      L3(bs[i].itf, pfx)
      in Get(Interpret(c, hw, db, event, Ok, Stream(bs)).0, L3Key(c, bs[i].itf, pfx))
  {
    var pfx := RoutePrefix(c.parse(bs[i].ip).value, n);
    SpelledLength(c, bs[i].subnet, n, if i == 0 then 0 else BlockLength(c, bs, i - 1));
    assert Binds(c, bs, i, pfx);
    CreatedExactly(c, hw, db, event, bs, bs[i].itf, pfx);
  }
}
